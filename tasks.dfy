/** The task routes: the manager's (`/manager/{manager_id}/tasks`: create, update,
    list, view, delete) and the employee's (`/employee/{employee_id}/tasks`: update
    the status, view, list). Every change of a task appends one audit row with the
    task's resulting status. */
module TaskRouter {
  import opened Domain
  import opened Queries
  import opened Store
  import Validators

  // ================= create_task =================

  /** The `TaskCreate` body as the handler sees it. */
  datatype TaskCreate = TaskCreate(title: string, description: string, assignedTo: Option<Uuid>, dueDate: Option<Day>)

  /** What `validate_uuid(assigned_to)` receives: the parsed UUID, or `None`. */
  function AssigneeArg(a: Option<Uuid>): Validators.UuidArg {
    match a
    case Some(id) => Validators.AsUuid(id)
    case None => Validators.Absent
  }

  /** Some active employee of `manager` has this id. */
  predicate IsTeamMember(users: seq<User>, id: Uuid, manager: Uuid) {
    exists j :: 0 <= j < |users| && UserMatches(AssignableTo(id, manager), users[j])
  }

  lemma TeamMemberFound(users: seq<User>, id: Uuid, manager: Uuid)
    ensures IsTeamMember(users, id, manager) <==> FirstUser(users, AssignableTo(id, manager)).Some?
  {
    if IsTeamMember(users, id, manager) {
      var j :| 0 <= j < |users| && UserMatches(AssignableTo(id, manager), users[j]);
    }
  }

  /** `create_task`: 403 unless the caller is the path manager; 400 for an empty
      title or description and for a title over 255 characters; a missing assignee
      is a 500 (`validate_uuid(None)` raises `TypeError`); an assignee that is not
      one of the manager's active employees is a 400; otherwise a pending task
      assigned to that employee, started now. */
  function TaskCreation(users: seq<User>, actor: User, managerId: Uuid, body: TaskCreate,
                        newId: Uuid, now: Instant): (r: Result<Task>)
    ensures r == Err(Forbidden) <==> !ActsAs(actor, managerId, Manager)
    ensures r.Ok? <==>
      ActsAs(actor, managerId, Manager) && body.title != [] && body.description != []
      && |body.title| <= 255 && body.assignedTo.Some? && IsTeamMember(users, body.assignedTo.value, managerId)
    ensures r == Err(BadRequest) <==>
      ActsAs(actor, managerId, Manager)
      && (body.title == [] || body.description == [] || |body.title| > 255
          || (body.assignedTo.Some? && !IsTeamMember(users, body.assignedTo.value, managerId)))
    ensures r == Err(InternalError) <==>
      ActsAs(actor, managerId, Manager) && body.title != [] && body.description != []
      && |body.title| <= 255 && body.assignedTo.None?
    ensures r.Ok? ==>
      && body.assignedTo.Some? && IsTeamMember(users, body.assignedTo.value, managerId)
      && r.value == Task(newId, body.title, body.description, Pending, body.assignedTo, managerId,
                         now, Some(now), body.dueDate, None)
  {
    if !ActsAs(actor, managerId, Manager) then Err(Forbidden)
    else if body.title == [] || body.description == [] then Err(BadRequest)
    else if |body.title| > 255 then Err(BadRequest)
    else match Validators.ValidateUuid(_ => None, AssigneeArg(body.assignedTo))
      case Err(e) => Err(e)
      case Ok(a) =>
        TeamMemberFound(users, a, managerId);
        if FirstUser(users, AssignableTo(a, managerId)).None? then Err(BadRequest)
        else Ok(Task(newId, body.title, body.description, Pending, Some(a), managerId, now, Some(now), body.dueDate, None))
  }

  method CreateTask(db: Db, actor: User, managerId: Uuid, body: TaskCreate, newId: Uuid, now: Instant)
    returns (r: Result<Task>)
    modifies db`tasks, db`taskLogs
    ensures r == TaskCreation(db.users, actor, managerId, body, newId, now)
    ensures r.Ok? ==> db.tasks == old(db.tasks) + [r.value]
                      && db.taskLogs == old(db.taskLogs) + [TaskLog(newId, Pending, now)]
    ensures r.Err? ==> db.tasks == old(db.tasks) && db.taskLogs == old(db.taskLogs)
    ensures old(db.Valid()) && FreshTaskId(old(db.tasks), newId) ==> db.Valid()
  {
    if actor.id != managerId || actor.role != Manager {
      return Err(Forbidden);
    }
    if body.title == [] || body.description == [] {
      return Err(BadRequest);
    }
    if |body.title| > 255 {
      return Err(BadRequest);
    }
    var assignee := Validators.ValidateUuid(_ => None, AssigneeArg(body.assignedTo));
    if assignee.Err? {
      return Err(assignee.error);
    }
    var a := assignee.value;
    var employee := FirstUser(db.users, AssignableTo(a, managerId));
    TeamMemberFound(db.users, a, managerId);
    if employee.None? {
      return Err(BadRequest);
    }
    var task := Task(newId, body.title, body.description, Pending, Some(a), managerId, now, Some(now), body.dueDate, None);
    var entry := TaskLog(task.id, task.status, now);
    if db.Valid() && FreshTaskId(db.tasks, newId) {
      assert AssigneeOk(db.users, task) by {
        assert UserMatches(AssignableTo(a, managerId), db.users[employee.value]);
      }
      AddTaskKeepsConsistent(db.users, db.tasks, db.taskLogs, task, entry);
      TaskAppendKeepsIds(db.tasks, task);
      TasksKeepingIdsKeepKey(db.tasks, db.tasks + [task], db.timeLogs);
    }
    db.tasks := db.tasks + [task];
    db.taskLogs := db.taskLogs + [entry];
    r := Ok(task);
  }

  // ================= update_task (manager) =================

  /** The assignee step of the manager's update. An `assigned_to` that is given must
      parse (else 400); when it names someone other than the current assignee, that
      someone must be an active employee of the manager (else 400), and the task
      goes to them and back to pending. */
  function Reassign(env: Env, users: seq<User>, managerId: Uuid, t: Task, p: Payload): (r: Result<Task>)
    ensures !Given(Get(p, "assigned_to")) ==> r == Ok(t)
    ensures r.Err? ==> r.error == BadRequest && Given(Get(p, "assigned_to"))
    ensures r.Ok? ==> r.value == t || (r.value == t.(assignedTo := r.value.assignedTo, status := Pending)
                                        && r.value.assignedTo != t.assignedTo
                                        && r.value.assignedTo.Some?
                                        && IsTeamMember(users, r.value.assignedTo.value, managerId))
    ensures Given(Get(p, "assigned_to")) ==>
      (r.Ok? <==> env.parseUuid(p["assigned_to"]).Some?
                  && var a := env.parseUuid(p["assigned_to"]).value;
                     Some(a) == t.assignedTo || IsTeamMember(users, a, managerId))
    ensures r.Ok? && Given(Get(p, "assigned_to")) ==> r.value.assignedTo == env.parseUuid(p["assigned_to"])
  {
    if !Given(Get(p, "assigned_to")) then Ok(t)
    else match Validators.ValidateUuid(env.parseUuid, Validators.AsText(p["assigned_to"]))
      case Err(e) => Err(e)
      case Ok(a) =>
        if Some(a) == t.assignedTo then Ok(t)
        else
          TeamMemberFound(users, a, managerId);
          if FirstUser(users, AssignableTo(a, managerId)).None? then Err(BadRequest)
          else Ok(t.(assignedTo := Some(a), status := Pending))
  }

  /** The title and description steps: a non-empty value replaces the old one as is. */
  function Retext(t: Task, p: Payload): (r: Task)
    ensures r.title == (if Given(Get(p, "title")) then p["title"] else t.title)
    ensures r.description == (if Given(Get(p, "description")) then p["description"] else t.description)
    ensures r == t.(title := r.title, description := r.description)
  {
    var t1 := if Given(Get(p, "title")) then t.(title := p["title"]) else t;
    if Given(Get(p, "description")) then t1.(description := p["description"]) else t1
  }

  /** The manager's `update_task`: 403 unless the caller is the path manager; 400 for
      an empty body; 404 when the task does not exist or another manager created
      it; 400 when it is completed; then the assignee, title and description steps.
      A title over 255 characters passes the handler and fails the VARCHAR(255)
      column at flush, inside `except Exception`: a 500. */
  function ManagerTaskUpdate(env: Env, users: seq<User>, tasks: seq<Task>, actor: User,
                             managerId: Uuid, taskId: Uuid, p: Payload): (r: Result<Task>)
    ensures r == Err(Forbidden) <==> !ActsAs(actor, managerId, Manager)
    ensures ActsAs(actor, managerId, Manager) && p == map[] ==> r == Err(BadRequest)
    ensures r == Err(NotFound) <==>
      ActsAs(actor, managerId, Manager) && p != map[]
      && (FirstTask(tasks, TaskById(taskId)).None?
          || tasks[FirstTask(tasks, TaskById(taskId)).value].createdBy != managerId)
    ensures r.Err? ==> r.error in {Forbidden, BadRequest, NotFound, InternalError}
    ensures var f := FirstTask(tasks, TaskById(taskId));
            (ActsAs(actor, managerId, Manager) && p != map[] && f.Some? && tasks[f.value].createdBy == managerId) ==>
              var t := tasks[f.value];
              && (t.status == Completed ==> r == Err(BadRequest))
              && (t.status != Completed && Reassign(env, users, managerId, t, p).Err? ==> r == Err(BadRequest))
              && (t.status != Completed && Reassign(env, users, managerId, t, p).Ok? ==>
                    var t2 := Retext(Reassign(env, users, managerId, t, p).value, p);
                    && (|t2.title| > 255 ==> r == Err(InternalError))
                    && (|t2.title| <= 255 ==> r == Ok(t2)))
    ensures r.Ok? ==>
      && FirstTask(tasks, TaskById(taskId)).Some?
      && var t := tasks[FirstTask(tasks, TaskById(taskId)).value];
      && t.createdBy == managerId && t.status != Completed
      && r.value.id == taskId && r.value.createdBy == managerId
      && r.value.createdAt == t.createdAt && r.value.startDate == t.startDate
      && r.value.dueDate == t.dueDate && r.value.completedAt == t.completedAt
      && |r.value.title| <= 255
      && (r.value.assignedTo == t.assignedTo ==> r.value.status == t.status)
      && (r.value.assignedTo != t.assignedTo ==>
            r.value.status == Pending && r.value.assignedTo.Some?
            && IsTeamMember(users, r.value.assignedTo.value, managerId))
  {
    if !ActsAs(actor, managerId, Manager) then Err(Forbidden)
    else if p == map[] then Err(BadRequest)
    else match FirstTask(tasks, TaskById(taskId))
      case None => Err(NotFound)
      case Some(i) =>
        if tasks[i].createdBy != managerId then Err(NotFound)
        else if tasks[i].status == Completed then Err(BadRequest)
        else match Reassign(env, users, managerId, tasks[i], p)
          case Err(e) => Err(e)
          case Ok(t1) =>
            var t2 := Retext(t1, p);
            if |t2.title| > 255 then Err(InternalError) else Ok(t2)
  }

  /** Resubmitting the current assignee keeps the status; only a real change of
      assignee sends the task back to pending. */
  lemma SameAssigneeKeepsStatus(env: Env, users: seq<User>, tasks: seq<Task>, actor: User,
                                managerId: Uuid, taskId: Uuid, p: Payload)
    requires ManagerTaskUpdate(env, users, tasks, actor, managerId, taskId, p).Ok?
    requires Given(Get(p, "assigned_to"))
    requires env.parseUuid(p["assigned_to"]) == tasks[FirstTask(tasks, TaskById(taskId)).value].assignedTo
    ensures ManagerTaskUpdate(env, users, tasks, actor, managerId, taskId, p).value.status
            == tasks[FirstTask(tasks, TaskById(taskId)).value].status
  {
  }

  method UpdateTaskByManager(db: Db, env: Env, actor: User, managerId: Uuid, taskId: Uuid, p: Payload, now: Instant)
    returns (r: Result<Task>)
    modifies db`tasks, db`taskLogs
    ensures r == ManagerTaskUpdate(env, db.users, old(db.tasks), actor, managerId, taskId, p)
    ensures r.Ok? ==>
      && db.tasks == old(db.tasks)[FirstTask(old(db.tasks), TaskById(taskId)).value := r.value]
      && db.taskLogs == old(db.taskLogs) + [TaskLog(taskId, r.value.status, now)]
    ensures r.Err? ==> db.tasks == old(db.tasks) && db.taskLogs == old(db.taskLogs)
    ensures old(db.Valid()) ==> db.Valid()
  {
    if actor.id != managerId || actor.role != Manager {
      return Err(Forbidden);
    }
    if p == map[] {
      return Err(BadRequest);
    }
    var found := FirstTask(db.tasks, TaskById(taskId));
    if found.None? || db.tasks[found.value].createdBy != managerId {
      return Err(NotFound);
    }
    var i := found.value;
    var task := db.tasks[i];
    if task.status == Completed {
      return Err(BadRequest);
    }
    var moved := Reassign(env, db.users, managerId, task, p);
    if moved.Err? {
      return Err(moved.error);
    }
    task := Retext(moved.value, p);
    if |task.title| > 255 {
      return Err(InternalError);
    }
    var entry := TaskLog(task.id, task.status, now);
    if db.Valid() {
      assert AssigneeOk(db.users, task) by {
        if task.assignedTo == db.tasks[i].assignedTo {
          assert AssigneeOk(db.users, db.tasks[i]);
        } else {
          var j :| 0 <= j < |db.users| && UserMatches(AssignableTo(task.assignedTo.value, managerId), db.users[j]);
        }
      }
      UpdateTaskKeepsConsistent(db.users, db.tasks, db.taskLogs, i, task, entry);
      TaskRewriteKeepsIds(db.tasks, i, task);
      TasksKeepingIdsKeepKey(db.tasks, db.tasks[i := task], db.timeLogs);
    }
    db.tasks := db.tasks[i := task];
    db.taskLogs := db.taskLogs + [entry];
    r := Ok(task);
  }

  // ================= update_task (employee) =================

  /** The name of each status, as the enum spells it. */
  function StatusName(s: TaskStatus): string {
    match s
    case Pending => "pending"
    case InProgress => "in progress"
    case Completed => "completed"
  }

  /** `status_map`: five accepted spellings; any other is a `KeyError`. */
  function MapStatus(s: string): (r: Option<TaskStatus>)
    ensures r.Some? <==> s in {"pending", "in-progress", "in progress", "in_progress", "completed"}
    ensures r == Some(Pending) <==> s == "pending"
    ensures r == Some(Completed) <==> s == "completed"
  {
    if s == "pending" then Some(Pending)
    else if s == "in-progress" || s == "in progress" || s == "in_progress" then Some(InProgress)
    else if s == "completed" then Some(Completed)
    else None
  }

  /** Every status's own name is among the accepted spellings and maps back to it. */
  lemma StatusNameRoundTrip(s: TaskStatus)
    ensures MapStatus(StatusName(s)) == Some(s)
  {
  }

  /** The employee's `update_task`: 403 unless the caller is the path employee; 400
      for an empty body; 403 when there is no "status"; 500 when the employee row
      is missing; 404 when the task does not exist or was not created by the
      employee's manager (whoever it is assigned to); 400 when it is completed; 500
      for a status outside `status_map`; otherwise only the status changes. */
  function EmployeeTaskUpdate(users: seq<User>, tasks: seq<Task>, actor: User, employeeId: Uuid,
                              taskId: Uuid, p: Payload): (r: Result<Task>)
    ensures r == Err(Forbidden) <==>
      !ActsAs(actor, employeeId, Employee) || (p != map[] && "status" !in p)
    ensures ActsAs(actor, employeeId, Employee) && p == map[] ==> r == Err(BadRequest)
    ensures r.Err? ==> r.error in {Forbidden, BadRequest, NotFound, InternalError}
    ensures ActsAs(actor, employeeId, Employee) && "status" in p ==>
      var e := FirstUser(users, ByIdRole(employeeId, Employee));
      var f := FirstTask(tasks, TaskById(taskId));
      && (e.None? ==> r == Err(InternalError))
      && (e.Some? && (f.None? || Some(tasks[f.value].createdBy) != users[e.value].createdBy) ==> r == Err(NotFound))
      && (e.Some? && f.Some? && Some(tasks[f.value].createdBy) == users[e.value].createdBy ==>
            && (tasks[f.value].status == Completed ==> r == Err(BadRequest))
            && (tasks[f.value].status != Completed && MapStatus(p["status"]).None? ==> r == Err(InternalError))
            && (tasks[f.value].status != Completed && MapStatus(p["status"]).Some? ==> r.Ok?))
    ensures r.Ok? ==>
      && "status" in p && MapStatus(p["status"]).Some?
      && FirstUser(users, ByIdRole(employeeId, Employee)).Some?
      && FirstTask(tasks, TaskById(taskId)).Some?
      && var t := tasks[FirstTask(tasks, TaskById(taskId)).value];
      && Some(t.createdBy) == users[FirstUser(users, ByIdRole(employeeId, Employee)).value].createdBy
      && t.status != Completed
      && r.value == t.(status := MapStatus(p["status"]).value)
  {
    if !ActsAs(actor, employeeId, Employee) then Err(Forbidden)
    else if p == map[] then Err(BadRequest)
    else if "status" !in p then Err(Forbidden)
    else match FirstUser(users, ByIdRole(employeeId, Employee))
      case None => Err(InternalError)
      case Some(j) =>
        match FirstTask(tasks, TaskById(taskId))
        case None => Err(NotFound)
        case Some(i) =>
          if Some(tasks[i].createdBy) != users[j].createdBy then Err(NotFound)
          else if tasks[i].status == Completed then Err(BadRequest)
          else match MapStatus(p["status"])
            case None => Err(InternalError)
            case Some(s) => Ok(tasks[i].(status := s))
  }

  method UpdateTaskByEmployee(db: Db, actor: User, employeeId: Uuid, taskId: Uuid, p: Payload, now: Instant)
    returns (r: Result<Task>)
    modifies db`tasks, db`taskLogs
    ensures r == EmployeeTaskUpdate(db.users, old(db.tasks), actor, employeeId, taskId, p)
    ensures r.Ok? ==>
      && db.tasks == old(db.tasks)[FirstTask(old(db.tasks), TaskById(taskId)).value := r.value]
      && db.taskLogs == old(db.taskLogs) + [TaskLog(taskId, r.value.status, now)]
    ensures r.Err? ==> db.tasks == old(db.tasks) && db.taskLogs == old(db.taskLogs)
    ensures old(db.Valid()) ==> db.Valid()
  {
    if actor.id != employeeId || actor.role != Employee {
      return Err(Forbidden);
    }
    if p == map[] {
      return Err(BadRequest);
    }
    if "status" !in p {
      return Err(Forbidden);
    }
    var employee := FirstUser(db.users, ByIdRole(employeeId, Employee));
    if employee.None? {
      // `employee.created_by` on `None` raises `AttributeError`.
      return Err(InternalError);
    }
    var manager := db.users[employee.value].createdBy;
    var found := FirstTask(db.tasks, TaskById(taskId));
    if found.None? || Some(db.tasks[found.value].createdBy) != manager {
      return Err(NotFound);
    }
    var i := found.value;
    var task := db.tasks[i];
    if task.status == Completed {
      return Err(BadRequest);
    }
    var status := MapStatus(p["status"]);
    if status.None? {
      return Err(InternalError);
    }
    task := task.(status := status.value);
    var entry := TaskLog(task.id, task.status, now);
    if db.Valid() {
      assert AssigneeOk(db.users, db.tasks[i]);
      UpdateTaskKeepsConsistent(db.users, db.tasks, db.taskLogs, i, task, entry);
      TaskRewriteKeepsIds(db.tasks, i, task);
      TasksKeepingIdsKeepKey(db.tasks, db.tasks[i := task], db.timeLogs);
    }
    db.tasks := db.tasks[i := task];
    db.taskLogs := db.taskLogs + [entry];
    r := Ok(task);
  }

  /** The employee update checks the task's creator, not its assignee: any employee
      of the same manager may change the status of a teammate's task, or of a task
      assigned to no one. */
  lemma TeammateMayUpdate(users: seq<User>, tasks: seq<Task>, actor: User, taskId: Uuid, i: nat)
    requires i < |tasks| && tasks[i].id == taskId
    requires forall k :: 0 <= k < i ==> tasks[k].id != taskId
    requires actor in users && actor.role == Employee
    requires forall j :: 0 <= j < |users| && users[j].id == actor.id ==> users[j] == actor
    requires actor.createdBy == Some(tasks[i].createdBy) && tasks[i].status != Completed
    requires tasks[i].assignedTo != Some(actor.id)
    ensures EmployeeTaskUpdate(users, tasks, actor, actor.id, taskId, map["status" := "completed"])
            == Ok(tasks[i].(status := Completed))
  {
    var p := map["status" := "completed"];
    assert "status" in p && p["status"] == "completed";
    var j :| 0 <= j < |users| && users[j] == actor;
    var f := FirstUser(users, ByIdRole(actor.id, Employee));
    assert UserMatches(ByIdRole(actor.id, Employee), users[j]);
    assert users[f.value] == actor;
    assert TaskMatches(TaskById(taskId), tasks[i]);
    assert FirstTask(tasks, TaskById(taskId)) == Some(i);
  }

  /** A completed task is final: neither update route changes it. */
  lemma CompletedIsFinal(env: Env, users: seq<User>, tasks: seq<Task>, actor: User, ownerId: Uuid,
                         taskId: Uuid, p: Payload)
    requires FirstTask(tasks, TaskById(taskId)).Some?
    requires tasks[FirstTask(tasks, TaskById(taskId)).value].status == Completed
    ensures !ManagerTaskUpdate(env, users, tasks, actor, ownerId, taskId, p).Ok?
    ensures !EmployeeTaskUpdate(users, tasks, actor, ownerId, taskId, p).Ok?
  {
  }

  // ================= get_task =================

  /** The manager route's `get_task`: 404 when the task does not exist; 403 when the
      caller is a manager other than its creator. The path's manager id is not
      looked at, and admins and employees pass. */
  function GetTaskForManager(tasks: seq<Task>, actor: User, taskId: Uuid): (r: Result<Task>)
    ensures r == Err(NotFound) <==> forall i :: 0 <= i < |tasks| ==> tasks[i].id != taskId
    ensures r == Err(Forbidden) <==>
      FirstTask(tasks, TaskById(taskId)).Some? && actor.role == Manager
      && actor.id != tasks[FirstTask(tasks, TaskById(taskId)).value].createdBy
    ensures r.Err? ==> r.error in {NotFound, Forbidden}
    ensures r.Ok? ==> r.value == tasks[FirstTask(tasks, TaskById(taskId)).value]
    ensures r.Ok? ==> r.value in tasks && r.value.id == taskId
    ensures r.Ok? && actor.role == Manager ==> r.value.createdBy == actor.id
  {
    match FirstTask(tasks, TaskById(taskId))
    case None => Err(NotFound)
    case Some(i) =>
      if actor.role == Manager && actor.id != tasks[i].createdBy then Err(Forbidden)
      else Ok(tasks[i])
  }

  /** The employee route's `get_task`: 404 when the task does not exist; 403 when the
      caller is an employee it is not assigned to. */
  function GetTaskForEmployee(tasks: seq<Task>, actor: User, taskId: Uuid): (r: Result<Task>)
    ensures r == Err(NotFound) <==> forall i :: 0 <= i < |tasks| ==> tasks[i].id != taskId
    ensures r == Err(Forbidden) <==>
      FirstTask(tasks, TaskById(taskId)).Some? && actor.role == Employee
      && tasks[FirstTask(tasks, TaskById(taskId)).value].assignedTo != Some(actor.id)
    ensures r.Err? ==> r.error in {NotFound, Forbidden}
    ensures r.Ok? ==> r.value == tasks[FirstTask(tasks, TaskById(taskId)).value]
    ensures r.Ok? ==> r.value in tasks && r.value.id == taskId
    ensures r.Ok? && actor.role == Employee ==> r.value.assignedTo == Some(actor.id)
  {
    match FirstTask(tasks, TaskById(taskId))
    case None => Err(NotFound)
    case Some(i) =>
      if actor.role == Employee && Some(actor.id) != tasks[i].assignedTo then Err(Forbidden)
      else Ok(tasks[i])
  }

  /** A task just created is what its creator then reads back. */
  lemma CreatedTaskReadable(users: seq<User>, tasks: seq<Task>, actor: User, body: TaskCreate,
                            newId: Uuid, now: Instant)
    requires FreshTaskId(tasks, newId)
    requires TaskCreation(users, actor, actor.id, body, newId, now).Ok?
    ensures var t := TaskCreation(users, actor, actor.id, body, newId, now).value;
            GetTaskForManager(tasks + [t], actor, newId) == Ok(t)
  {
    var t := TaskCreation(users, actor, actor.id, body, newId, now).value;
    var s := tasks + [t];
    assert s[|tasks|] == t;
    assert forall k :: 0 <= k < |tasks| ==> !TaskMatches(TaskById(newId), s[k]);
    assert TaskMatches(TaskById(newId), s[|tasks|]);
    assert FirstTask(s, TaskById(newId)) == Some(|tasks|);
  }

  // ================= delete_task =================

  /** The guard of `delete_task` as written: 404 when the task does not exist, and a
      403 exactly when the caller is a manager and the task's creator, the reverse
      of the comment above it. */
  function DeleteGate(tasks: seq<Task>, actor: User, taskId: Uuid): (r: Result<nat>)
    ensures r == Err(NotFound) <==> forall i :: 0 <= i < |tasks| ==> tasks[i].id != taskId
    ensures r == Err(Forbidden) <==>
      FirstTask(tasks, TaskById(taskId)).Some? && actor.role == Manager
      && actor.id == tasks[FirstTask(tasks, TaskById(taskId)).value].createdBy
    ensures r.Err? ==> r.error in {NotFound, Forbidden}
    ensures r.Ok? ==> r.value == FirstTask(tasks, TaskById(taskId)).value && tasks[r.value].id == taskId
  {
    match FirstTask(tasks, TaskById(taskId))
    case None => Err(NotFound)
    case Some(i) =>
      if actor.role == Manager && actor.id == tasks[i].createdBy then Err(Forbidden)
      else Ok(i)
  }

  /** The manager who created a task can never delete it, while any employee, admin
      or other manager can. */
  lemma CreatorCannotDelete(tasks: seq<Task>, actor: User, taskId: Uuid)
    requires FirstTask(tasks, TaskById(taskId)).Some?
    ensures actor.role == Manager && actor.id == tasks[FirstTask(tasks, TaskById(taskId)).value].createdBy
            ==> DeleteGate(tasks, actor, taskId) == Err(Forbidden)
    ensures actor.role != Manager ==> DeleteGate(tasks, actor, taskId).Ok?
  {
  }

  /** `delete_task`: the row goes, and ON DELETE CASCADE takes its audit rows and
      time logs with it. */
  method DeleteTask(db: Db, actor: User, taskId: Uuid) returns (r: Result<Uuid>)
    modifies db`tasks, db`taskLogs, db`timeLogs
    ensures var gate := DeleteGate(old(db.tasks), actor, taskId);
            && (gate.Err? ==> r == Err(gate.error) && db.tasks == old(db.tasks)
                              && db.taskLogs == old(db.taskLogs) && db.timeLogs == old(db.timeLogs))
            && (gate.Ok? ==>
                  && r == Ok(taskId)
                  && db.tasks == RemoveAt(old(db.tasks), gate.value)
                  && db.taskLogs == TaskLogsWithout(old(db.taskLogs), taskId)
                  && db.timeLogs == TimeLogsWithout(old(db.timeLogs), taskId))
    ensures old(db.Valid()) ==> db.Valid()
  {
    var found := FirstTask(db.tasks, TaskById(taskId));
    if found.None? {
      return Err(NotFound);
    }
    var i := found.value;
    if actor.role == Manager && actor.id == db.tasks[i].createdBy {
      return Err(Forbidden);
    }
    db.DeleteTaskAt(i);
    r := Ok(taskId);
  }

  /** With ids unique, after the delete no task has the id any more. */
  lemma {:induction false} DeletedTaskGone(tasks: seq<Task>, i: nat)
    requires i < |tasks| && UniqueTaskIds(tasks)
    ensures forall k :: 0 <= k < |RemoveAt(tasks, i)| ==> RemoveAt(tasks, i)[k].id != tasks[i].id
  {
    var s := RemoveAt(tasks, i);
    forall k | 0 <= k < |s| ensures s[k].id != tasks[i].id {
      var k0 := if k < i then k else k + 1;
      assert s[k] == tasks[k0] && k0 != i;
    }
  }

  // ================= the listings =================

  /** Page `offset`/`limit` of the tasks `f` selects, newest first. */
  function TaskPage(tasks: seq<Task>, f: TaskFilter, offset: nat, limit: nat): (r: seq<Task>)
    ensures |r| <= limit
    ensures var n := |SelectTasks(tasks, f)|;
            |r| == if offset >= n then 0 else Min(limit, n - offset)
    ensures forall t :: t in r ==> t in tasks && TaskMatches(f, t)
    ensures SortedBy(r, NewestFirst)
    ensures forall i :: 0 <= i < |r| ==>
      offset + i < |OrderByNewest(SelectTasks(tasks, f))| && r[i] == OrderByNewest(SelectTasks(tasks, f))[offset + i]
  {
    var all := OrderByNewest(SelectTasks(tasks, f));
    assert |all| == |multiset(all)| == |SelectTasks(tasks, f)|;
    PageKeepsSorted(all, offset, limit, NewestFirst);
    var r := Page(all, offset, limit);
    assert forall t :: t in r ==> t in all;
    assert forall t :: t in all <==> t in multiset(all);
    assert forall t :: t in SelectTasks(tasks, f) <==> t in multiset(SelectTasks(tasks, f));
    r
  }

  /** `list_manager_tasks`: 403 unless the caller is the path manager, then 400 when
      `limit` exceeds 100; otherwise one page of the tasks the manager created,
      newest first. */
  function ListManagerTasks(tasks: seq<Task>, actor: User, managerId: Uuid, limit: nat, offset: nat)
    : (r: Result<seq<Task>>)
    ensures r == Err(Forbidden) <==> !ActsAs(actor, managerId, Manager)
    ensures r == Err(BadRequest) <==> ActsAs(actor, managerId, Manager) && limit > 100
    ensures r.Ok? ==>
      && |r.value| <= limit && SortedBy(r.value, NewestFirst)
      && forall t :: t in r.value ==> t in tasks && t.createdBy == managerId
    ensures r.Ok? ==> r.value == TaskPage(tasks, TaskFilter(None, Some(managerId), None), offset, limit)
    ensures r.Err? ==> r.error in {Forbidden, BadRequest}
  {
    if !ActsAs(actor, managerId, Manager) then Err(Forbidden)
    else if limit > 100 then Err(BadRequest)
    else Ok(TaskPage(tasks, TaskFilter(None, Some(managerId), None), offset, limit))
  }

  /** `list_employee_tasks`: 403 unless the caller is the path employee, then 400 when
      `limit` exceeds 100; otherwise one page of the tasks assigned to the employee,
      newest first. */
  function ListEmployeeTasks(tasks: seq<Task>, actor: User, employeeId: Uuid, limit: nat, offset: nat)
    : (r: Result<seq<Task>>)
    ensures r == Err(Forbidden) <==> !ActsAs(actor, employeeId, Employee)
    ensures r == Err(BadRequest) <==> ActsAs(actor, employeeId, Employee) && limit > 100
    ensures r.Ok? ==>
      && |r.value| <= limit && SortedBy(r.value, NewestFirst)
      && forall t :: t in r.value ==> t in tasks && t.assignedTo == Some(employeeId)
    ensures r.Ok? ==> r.value == TaskPage(tasks, TaskFilter(None, None, Some(employeeId)), offset, limit)
    ensures r.Err? ==> r.error in {Forbidden, BadRequest}
  {
    if !ActsAs(actor, employeeId, Employee) then Err(Forbidden)
    else if limit > 100 then Err(BadRequest)
    else Ok(TaskPage(tasks, TaskFilter(None, None, Some(employeeId)), offset, limit))
  }

  /** Walking the manager's listing page by page: two consecutive pages are the page
      that spans both, so no task is skipped or repeated. */
  lemma ManagerPagesConcatenate(tasks: seq<Task>, actor: User, managerId: Uuid, offset: nat, a: nat, b: nat)
    requires ActsAs(actor, managerId, Manager) && a <= 100 && b <= 100 && a + b <= 100
    ensures ListManagerTasks(tasks, actor, managerId, a, offset).value
            + ListManagerTasks(tasks, actor, managerId, b, offset + a).value
            == ListManagerTasks(tasks, actor, managerId, a + b, offset).value
  {
    PagesConcatenate(OrderByNewest(SelectTasks(tasks, TaskFilter(None, Some(managerId), None))), offset, a, b);
  }
}
