/** The manager router (`/manager/{manager_id}/...`): the manager's own profile
    and password, and the employees the manager creates, lists, views and
    switches on and off. */
module ManagerRouter {
  import opened Domain
  import opened Queries
  import opened Store
  import opened Accounts

  /** `PATCH /manager/{manager_id}/profile`. Like the admin's, only the id is
      checked, not the role. */
  method UpdateManagerProfile(db: Db, env: Env, actor: User, managerId: Uuid, p: Payload)
    returns (r: Result<User>)
    modifies db`users
    ensures actor.id != managerId ==> r == Err(Forbidden)
    ensures actor.id == managerId && p == map[] ==> r == Err(BadRequest)
    ensures actor.id == managerId && p != map[] ==> r == ProfileEdit(env, old(db.users), managerId, p)
    ensures r.Ok? ==> db.users == ReplaceUser(old(db.users), FirstUser(old(db.users), ById(managerId)).value, r.value)
    ensures r.Err? ==> db.users == old(db.users)
    ensures old(db.Valid()) ==> db.Valid()
  {
    if actor.id != managerId {
      return Err(Forbidden);
    }
    if p == map[] {
      return Err(BadRequest);
    }
    r := EditProfile(db, env, managerId, p);
  }

  /** `POST /manager/{manager_id}/employees`: a new employee created by this manager. */
  method CreateEmployee(db: Db, env: Env, actor: User, managerId: Uuid, p: Payload, newId: Uuid, now: Instant)
    returns (r: Result<User>)
    modifies db`users
    ensures r == Provision(env, old(db.users), actor, managerId, Manager, Employee, p, newId, now)
    ensures r.Ok? ==> r.value.role == Employee && r.value.createdBy == Some(managerId) && r.value.isActive
    ensures r.Ok? ==> db.users == old(db.users) + [r.value]
    ensures r.Err? ==> db.users == old(db.users)
    ensures old(db.Valid()) && actor in old(db.users) && FreshUserId(old(db.users), newId) ==> db.Valid()
  {
    r := ProvisionUser(db, env, actor, managerId, Manager, Employee, p, newId, now);
  }

  /** `GET /manager/{manager_id}/employees`: 400 when `limit` exceeds 100; 403 only
      when the caller is neither this manager nor an admin; otherwise one page of
      the manager's active employees in username order. */
  function ListEmployees(users: seq<User>, actor: User, managerId: Uuid, limit: nat, offset: nat)
    : (r: Result<seq<User>>)
    ensures limit > 100 ==> r == Err(BadRequest)
    ensures limit <= 100 ==> (r == Err(Forbidden) <==> actor.id != managerId && actor.role != Admin)
    ensures r.Ok? ==>
      && |r.value| <= limit
      && SortedBy(r.value, ByUsername)
      && (forall e :: e in r.value ==>
            e in users && e.role == Employee && e.createdBy == Some(managerId) && e.isActive)
      && forall i :: 0 <= i < |r.value| ==>
           offset + i < |ActiveStaff(users, managerId, Employee)|
           && r.value[i] == ActiveStaff(users, managerId, Employee)[offset + i]
    ensures r.Ok? ==> r.value == StaffPage(users, managerId, Employee, offset, limit)
    ensures r.Err? ==> r.error in {BadRequest, Forbidden}
  {
    if limit > 100 then Err(BadRequest)
    else if actor.id != managerId && actor.role != Admin then Err(Forbidden)
    else Ok(StaffPage(users, managerId, Employee, offset, limit))
  }

  /** `GET /manager/{manager_id}/employees/{employee_id}`: 403 when the caller is a
      manager other than this one; 404 when no employee has the id; 403 when the
      employee belongs to another manager, unless the caller is an admin. An
      employee caller passes the first test and sees any employee of the path
      manager. */
  function GetEmployee(users: seq<User>, actor: User, managerId: Uuid, employeeId: Uuid): (r: Result<User>)
    ensures actor.role == Manager && actor.id != managerId ==> r == Err(Forbidden)
    ensures r == Err(Forbidden) <==>
      (actor.role == Manager && actor.id != managerId)
      || (FirstUser(users, ByIdRole(employeeId, Employee)).Some?
          && users[FirstUser(users, ByIdRole(employeeId, Employee)).value].createdBy != Some(managerId)
          && actor.role != Admin)
    ensures r.Err? ==> r.error in {Forbidden, NotFound}
    ensures r == Err(NotFound) <==>
      !(actor.role == Manager && actor.id != managerId)
      && FirstUser(users, ByIdRole(employeeId, Employee)).None?
    ensures r.Ok? ==> r.value in users && r.value.id == employeeId && r.value.role == Employee
    ensures r.Ok? ==> r.value.createdBy == Some(managerId) || actor.role == Admin
    ensures r.Ok? && actor.role == Manager ==> actor.id == managerId && r.value.createdBy == Some(actor.id)
  {
    if actor.role == Manager && actor.id != managerId then Err(Forbidden)
    else match FirstUser(users, ByIdRole(employeeId, Employee))
      case None => Err(NotFound)
      case Some(i) =>
        if users[i].createdBy != Some(managerId) && actor.role != Admin then Err(Forbidden)
        else Ok(users[i])
  }

  /** The listing and the detail view agree: with user ids unique, every employee a
      caller is shown on a page of `list_employees` is what `get_employee` returns
      to that caller for its id. */
  lemma ListedEmployeeRetrievable(users: seq<User>, actor: User, managerId: Uuid, limit: nat, offset: nat, e: User)
    requires UniqueUserIds(users)
    requires ListEmployees(users, actor, managerId, limit, offset).Ok?
    requires e in ListEmployees(users, actor, managerId, limit, offset).value
    ensures GetEmployee(users, actor, managerId, e.id) == Ok(e)
  {
    var k :| 0 <= k < |users| && users[k] == e;
    assert UserMatches(ByIdRole(e.id, Employee), users[k]);
    var f := FirstUser(users, ByIdRole(e.id, Employee));
    assert f.value == k;
  }

  /** `PUT /manager/{manager_id}/reset_password`; the new password is under "new_password". */
  method ResetManagerPassword(db: Db, env: Env, actor: User, managerId: Uuid, p: Payload)
    returns (r: Result<Uuid>)
    modifies db`users
    ensures var spec := PasswordReset(env, old(db.users), actor, managerId, Manager, p, "new_password");
            && (spec.Err? ==> r == Err(spec.error) && db.users == old(db.users))
            && (spec.Ok? ==>
                  r == Ok(managerId) && db.users == ReplaceUser(old(db.users), FirstUser(old(db.users), ById(managerId)).value, spec.value))
    ensures old(db.Valid()) ==> db.Valid()
  {
    r := ResetPassword(db, env, actor, managerId, Manager, p, "new_password");
  }

  /** `PATCH /manager/{manager_id}/users/{employee_id}/deactivate` */
  method DeactivateEmployee(db: Db, actor: User, managerId: Uuid, employeeId: Uuid) returns (r: Result<Uuid>)
    modifies db`users
    ensures var gate := ActivationGate(old(db.users), actor, Manager, managerId, employeeId, Employee, false);
            && (gate.Err? ==> r == Err(gate.error) && db.users == old(db.users))
            && (gate.Ok? ==> r == Ok(employeeId) && db.users == SetActive(old(db.users), gate.value, false))
    ensures old(db.Valid()) ==> db.Valid()
  {
    r := SwitchActive(db, actor, Manager, managerId, employeeId, Employee, false);
  }

  /** `PATCH /manager/{manager_id}/users/{employee_id}/activate` */
  method ActivateEmployee(db: Db, actor: User, managerId: Uuid, employeeId: Uuid) returns (r: Result<Uuid>)
    modifies db`users
    ensures var gate := ActivationGate(old(db.users), actor, Manager, managerId, employeeId, Employee, true);
            && (gate.Err? ==> r == Err(gate.error) && db.users == old(db.users))
            && (gate.Ok? ==> r == Ok(employeeId) && db.users == SetActive(old(db.users), gate.value, true))
    ensures old(db.Valid()) ==> db.Valid()
  {
    r := SwitchActive(db, actor, Manager, managerId, employeeId, Employee, true);
  }
}
