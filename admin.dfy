/** The admin router (`/admin/{admin_id}/...`): the admin's own profile and
    password, and the managers the admin creates, lists, views and switches on
    and off. Path ids arrive already parsed (see `Validators.ValidateUuid`), and
    `actor` is the row `get_current_user` resolved. */
module AdminRouter {
  import opened Domain
  import opened Queries
  import opened Store
  import opened Accounts

  /** `PATCH /admin/{admin_id}/profile`. The only authorisation test is the id one:
      the role is not checked. */
  method UpdateAdminProfile(db: Db, env: Env, actor: User, adminId: Uuid, p: Payload)
    returns (r: Result<User>)
    modifies db`users
    ensures actor.id != adminId ==> r == Err(Forbidden)
    ensures actor.id == adminId && p == map[] ==> r == Err(BadRequest)
    ensures actor.id == adminId && p != map[] ==> r == ProfileEdit(env, old(db.users), adminId, p)
    ensures r.Ok? ==> db.users == ReplaceUser(old(db.users), FirstUser(old(db.users), ById(adminId)).value, r.value)
    ensures r.Err? ==> db.users == old(db.users)
    ensures old(db.Valid()) ==> db.Valid()
  {
    if actor.id != adminId {
      return Err(Forbidden);
    }
    if p == map[] {
      return Err(BadRequest);
    }
    r := EditProfile(db, env, adminId, p);
  }

  /** `POST /admin/{admin_id}/managers`: a new manager created by this admin. */
  method CreateManager(db: Db, env: Env, actor: User, adminId: Uuid, p: Payload, newId: Uuid, now: Instant)
    returns (r: Result<User>)
    modifies db`users
    ensures r == Provision(env, old(db.users), actor, adminId, Admin, Manager, p, newId, now)
    ensures r.Ok? ==> r.value.role == Manager && r.value.createdBy == Some(adminId) && r.value.isActive
    ensures r.Ok? ==> db.users == old(db.users) + [r.value]
    ensures r.Err? ==> db.users == old(db.users)
    ensures old(db.Valid()) && actor in old(db.users) && FreshUserId(old(db.users), newId) ==> db.Valid()
  {
    r := ProvisionUser(db, env, actor, adminId, Admin, Manager, p, newId, now);
  }

  /** A manager as the listings show it, with the manager's active employees. */
  datatype ManagerView = ManagerView(manager: User, employees: seq<User>)

  /** `GET /admin/{admin_id}/managers`: 400 when `limit` exceeds 100; 403 only when
      the caller is neither this admin nor any admin (so every admin may list every
      admin's managers); otherwise one page of the admin's active managers in
      username order, each with all of its active employees in username order (the
      employees are not paged). */
  method ListManagers(db: Db, actor: User, adminId: Uuid, limit: nat, offset: nat)
    returns (r: Result<seq<ManagerView>>)
    ensures limit > 100 ==> r == Err(BadRequest)
    ensures limit <= 100 ==> (r == Err(Forbidden) <==> actor.id != adminId && actor.role != Admin)
    ensures r.Err? ==> r.error in {BadRequest, Forbidden}
    ensures r.Ok? ==>
      var managers := StaffPage(db.users, adminId, Manager, offset, limit);
      && |r.value| == |managers|
      && forall i :: 0 <= i < |r.value| ==>
           r.value[i].manager == managers[i]
           && r.value[i].employees == ActiveStaff(db.users, managers[i].id, Employee)
  {
    if limit > 100 {
      return Err(BadRequest);
    }
    if actor.id != adminId && actor.role != Admin {
      return Err(Forbidden);
    }
    var managers := StaffPage(db.users, adminId, Manager, offset, limit);
    var data: seq<ManagerView> := [];
    var k := 0;
    while k < |managers|
      invariant 0 <= k <= |managers|
      invariant |data| == k
      invariant forall j :: 0 <= j < k ==>
        data[j].manager == managers[j] && data[j].employees == ActiveStaff(db.users, managers[j].id, Employee)
    {
      var m := managers[k];
      var employees := ActiveStaff(db.users, m.id, Employee);
      data := data + [ManagerView(m, employees)];
      k := k + 1;
    }
    r := Ok(data);
  }

  /** What one entry of the listing contains: an active manager of this admin, and
      exactly that manager's active employees, in username order. */
  lemma ListedManagerMeaning(users: seq<User>, adminId: Uuid, offset: nat, limit: nat, v: ManagerView)
    requires v.manager in StaffPage(users, adminId, Manager, offset, limit)
    requires v.employees == ActiveStaff(users, v.manager.id, Employee)
    ensures v.manager in users && v.manager.role == Manager && v.manager.createdBy == Some(adminId)
    ensures v.manager.isActive
    ensures forall e :: e in v.employees <==>
      e in users && e.role == Employee && e.createdBy == Some(v.manager.id) && e.isActive
    ensures SortedBy(v.employees, ByUsername)
  {
  }

  /** `GET /admin/{admin_id}/managers/{manager_id}`: 400 when `limit` exceeds 100;
      403 only when the caller is an admin other than this one; 404 when no manager
      with that id was created by this admin (an inactive one is found); otherwise
      the manager with one page of its active employees in username order. */
  function GetManager(users: seq<User>, actor: User, adminId: Uuid, managerId: Uuid,
                      limit: nat, offset: nat): (r: Result<ManagerView>)
    ensures r == Err(BadRequest) <==> limit > 100
    ensures r == Err(Forbidden) <==> limit <= 100 && actor.role == Admin && actor.id != adminId
    ensures r == Err(NotFound) <==>
      limit <= 100 && !(actor.role == Admin && actor.id != adminId)
      && forall i :: 0 <= i < |users| ==>
           !(users[i].id == managerId && users[i].role == Manager && users[i].createdBy == Some(adminId))
    ensures r.Ok? ==>
      && r.value.manager in users && r.value.manager.id == managerId
      && r.value.manager.role == Manager && r.value.manager.createdBy == Some(adminId)
      && |r.value.employees| <= limit
      && SortedBy(r.value.employees, ByUsername)
      && forall e :: e in r.value.employees ==>
           e in users && e.role == Employee && e.createdBy == Some(managerId) && e.isActive
    ensures r.Ok? ==> r.value.employees == StaffPage(users, managerId, Employee, offset, limit)
    ensures r.Err? ==> r.error in {BadRequest, Forbidden, NotFound}
  {
    if limit > 100 then Err(BadRequest)
    else if actor.role == Admin && actor.id != adminId then Err(Forbidden)
    else match FirstUser(users, UserFilter(Some(managerId), Some(Manager), Some(adminId), false))
      case None => Err(NotFound)
      case Some(i) => Ok(ManagerView(users[i], StaffPage(users, managerId, Employee, offset, limit)))
  }

  /** Managers and employees are never refused by `get_manager`'s 403. */
  lemma GetManagerOpenToNonAdmins(users: seq<User>, actor: User, adminId: Uuid, managerId: Uuid,
                                  limit: nat, offset: nat)
    requires actor.role != Admin
    ensures GetManager(users, actor, adminId, managerId, limit, offset) != Err(Forbidden)
  {
  }

  /** `PUT /admin/{admin_id}/reset_password`; the new password is under "new_password". */
  method ResetAdminPassword(db: Db, env: Env, actor: User, adminId: Uuid, p: Payload)
    returns (r: Result<Uuid>)
    modifies db`users
    ensures var spec := PasswordReset(env, old(db.users), actor, adminId, Admin, p, "new_password");
            && (spec.Err? ==> r == Err(spec.error) && db.users == old(db.users))
            && (spec.Ok? ==>
                  r == Ok(adminId) && db.users == ReplaceUser(old(db.users), FirstUser(old(db.users), ById(adminId)).value, spec.value))
    ensures old(db.Valid()) ==> db.Valid()
  {
    r := ResetPassword(db, env, actor, adminId, Admin, p, "new_password");
  }

  /** `PATCH /admin/{admin_id}/users/{manager_id}/deactivate` */
  method DeactivateManager(db: Db, actor: User, adminId: Uuid, managerId: Uuid) returns (r: Result<Uuid>)
    modifies db`users
    ensures var gate := ActivationGate(old(db.users), actor, Admin, adminId, managerId, Manager, false);
            && (gate.Err? ==> r == Err(gate.error) && db.users == old(db.users))
            && (gate.Ok? ==> r == Ok(managerId) && db.users == SetActive(old(db.users), gate.value, false))
    ensures old(db.Valid()) ==> db.Valid()
  {
    r := SwitchActive(db, actor, Admin, adminId, managerId, Manager, false);
  }

  /** `PATCH /admin/{admin_id}/users/{manager_id}/activate` */
  method ActivateManager(db: Db, actor: User, adminId: Uuid, managerId: Uuid) returns (r: Result<Uuid>)
    modifies db`users
    ensures var gate := ActivationGate(old(db.users), actor, Admin, adminId, managerId, Manager, true);
            && (gate.Err? ==> r == Err(gate.error) && db.users == old(db.users))
            && (gate.Ok? ==> r == Ok(managerId) && db.users == SetActive(old(db.users), gate.value, true))
    ensures old(db.Valid()) ==> db.Valid()
  {
    r := SwitchActive(db, actor, Admin, adminId, managerId, Manager, true);
  }
}
