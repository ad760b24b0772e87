/** The database the endpoints share: the four tables, and the consistency that
    every endpoint keeps (unique ids, the admin -> manager -> employee chain of
    creators, task assignees inside their manager's team, audit rows that name a
    task). */
module Store {
  import opened Domain
  import opened Queries

  class Db {
    var users: seq<User>
    var tasks: seq<Task>
    var taskLogs: seq<TaskLog>
    var timeLogs: seq<TimeLog>

    constructor ()
      ensures users == [] && tasks == [] && taskLogs == [] && timeLogs == []
      ensures Valid()
    {
      users, tasks, taskLogs, timeLogs := [], [], [], [];
    }

    ghost predicate Valid()
      reads this
    {
      Consistent(users, tasks, taskLogs) && TimeLogsNameTasks(tasks, timeLogs)
    }

    /** Deleting task row `i`: ON DELETE CASCADE removes the audit rows and the time
        logs that name it, and the store stays consistent. */
    method DeleteTaskAt(i: nat)
      requires i < |tasks|
      modifies this`tasks, this`taskLogs, this`timeLogs
      ensures tasks == RemoveAt(old(tasks), i)
      ensures taskLogs == TaskLogsWithout(old(taskLogs), old(tasks)[i].id)
      ensures timeLogs == TimeLogsWithout(old(timeLogs), old(tasks)[i].id)
      ensures old(Valid()) ==> Valid()
    {
      var id := tasks[i].id;
      if Valid() {
        DeleteTaskKeepsConsistent(users, tasks, taskLogs, i);
        DeleteTaskKeepsKey(tasks, timeLogs, i);
      }
      tasks, taskLogs, timeLogs := RemoveAt(tasks, i), TaskLogsWithout(taskLogs, id), TimeLogsWithout(timeLogs, id);
    }
  }

  // ---------------- the invariant ----------------

  ghost predicate UniqueUserIds(users: seq<User>) {
    forall i, j :: 0 <= i < j < |users| ==> users[i].id != users[j].id
  }

  ghost predicate UniqueTaskIds(tasks: seq<Task>) {
    forall i, j :: 0 <= i < j < |tasks| ==> tasks[i].id != tasks[j].id
  }

  predicate FreshUserId(users: seq<User>, id: Uuid) {
    forall i :: 0 <= i < |users| ==> users[i].id != id
  }

  predicate FreshTaskId(tasks: seq<Task>, id: Uuid) {
    forall i :: 0 <= i < |tasks| ==> tasks[i].id != id
  }

  /** Some row has this id and this role. */
  ghost predicate HasUser(users: seq<User>, id: Uuid, role: UserRole) {
    exists j :: 0 <= j < |users| && users[j].id == id && users[j].role == role
  }

  /** Admins have no creator, a manager's creator is an admin, an employee's a manager. */
  ghost predicate CreatorOk(users: seq<User>, u: User) {
    match u.role
    case Admin => u.createdBy.None?
    case Manager => u.createdBy.Some? && HasUser(users, u.createdBy.value, Admin)
    case Employee => u.createdBy.Some? && HasUser(users, u.createdBy.value, Manager)
  }

  ghost predicate Hierarchy(users: seq<User>) {
    forall i :: 0 <= i < |users| ==> CreatorOk(users, users[i])
  }

  /** A task's assignee, when there is one, is an employee its creator created. */
  ghost predicate AssigneeOk(users: seq<User>, t: Task) {
    t.assignedTo.Some? ==>
      exists j :: 0 <= j < |users| && users[j].id == t.assignedTo.value
                  && users[j].role == Employee && users[j].createdBy == Some(t.createdBy)
  }

  ghost predicate Assignments(users: seq<User>, tasks: seq<Task>) {
    forall i :: 0 <= i < |tasks| ==> AssigneeOk(users, tasks[i])
  }

  predicate NamesTask(tasks: seq<Task>, id: Uuid) {
    exists i :: 0 <= i < |tasks| && tasks[i].id == id
  }

  ghost predicate LogsNameTasks(tasks: seq<Task>, logs: seq<TaskLog>) {
    forall k :: 0 <= k < |logs| ==> NamesTask(tasks, logs[k].taskId)
  }

  /** The time_logs foreign key on task_id: every time log names a task. */
  ghost predicate TimeLogsNameTasks(tasks: seq<Task>, logs: seq<TimeLog>) {
    forall k :: 0 <= k < |logs| ==> NamesTask(tasks, logs[k].taskId)
  }

  ghost predicate Consistent(users: seq<User>, tasks: seq<Task>, logs: seq<TaskLog>) {
    && UniqueUserIds(users)
    && UniqueTaskIds(tasks)
    && Hierarchy(users)
    && Assignments(users, tasks)
    && LogsNameTasks(tasks, logs)
  }

  // ---------------- row updates and what they keep ----------------

  /** Two versions of the users table with the same ids, roles and creators row by
      row: what every in-place user update (profile, password, activation) leaves. */
  ghost predicate SameShape(users: seq<User>, users': seq<User>) {
    |users'| == |users|
    && forall i :: 0 <= i < |users| ==>
         users'[i].id == users[i].id && users'[i].role == users[i].role
         && users'[i].createdBy == users[i].createdBy
  }

  /** The users table with row `i` replaced by `u`. */
  function ReplaceUser(users: seq<User>, i: nat, u: User): (r: seq<User>)
    requires i < |users|
    requires u.id == users[i].id && u.role == users[i].role && u.createdBy == users[i].createdBy
    ensures SameShape(users, r)
    ensures |r| == |users| && r[i] == u
    ensures forall j :: 0 <= j < |users| && j != i ==> r[j] == users[j]
  {
    users[i := u]
  }

  lemma {:induction false} SameShapeKeepsConsistent(users: seq<User>, users': seq<User>, tasks: seq<Task>, logs: seq<TaskLog>)
    requires SameShape(users, users')
    ensures Consistent(users, tasks, logs) ==> Consistent(users', tasks, logs)
  {
    if !Consistent(users, tasks, logs) {
      return;
    }
    forall i | 0 <= i < |users'| ensures CreatorOk(users', users'[i]) {
      assert CreatorOk(users, users[i]);
      if users[i].role != Admin {
        var j :| 0 <= j < |users| && users[j].id == users[i].createdBy.value
                 && users[j].role == (if users[i].role == Manager then Admin else Manager);
        assert users'[j].id == users[j].id && users'[j].role == users[j].role;
      }
    }
    forall i | 0 <= i < |tasks| ensures AssigneeOk(users', tasks[i]) {
      assert AssigneeOk(users, tasks[i]);
      if tasks[i].assignedTo.Some? {
        var j :| 0 <= j < |users| && users[j].id == tasks[i].assignedTo.value
                 && users[j].role == Employee && users[j].createdBy == Some(tasks[i].createdBy);
        assert users'[j].id == users[j].id;
      }
    }
  }

  /** Inserting a user with a fresh id whose creator fits the chain. */
  lemma {:induction false} AddUserKeepsConsistent(users: seq<User>, tasks: seq<Task>, logs: seq<TaskLog>, u: User)
    requires Consistent(users, tasks, logs)
    requires FreshUserId(users, u.id) && CreatorOk(users, u)
    ensures Consistent(users + [u], tasks, logs)
  {
    var users' := users + [u];
    forall i | 0 <= i < |users'| ensures CreatorOk(users', users'[i]) {
      var v := if i < |users| then users[i] else u;
      assert users'[i] == v;
      assert CreatorOk(users, v);
      if v.role != Admin {
        var j :| 0 <= j < |users| && users[j].id == v.createdBy.value
                 && users[j].role == (if v.role == Manager then Admin else Manager);
        assert users'[j] == users[j];
      }
    }
    forall i | 0 <= i < |tasks| ensures AssigneeOk(users', tasks[i]) {
      assert AssigneeOk(users, tasks[i]);
      if tasks[i].assignedTo.Some? {
        var j :| 0 <= j < |users| && users[j].id == tasks[i].assignedTo.value
                 && users[j].role == Employee && users[j].createdBy == Some(tasks[i].createdBy);
        assert users'[j] == users[j];
      }
    }
  }

  /** A new user provisioned by `actor`, a row of the table, keeps the chain when the
      new user's role is the one directly below the actor's. */
  lemma ProvisionedCreatorOk(users: seq<User>, actor: User, u: User)
    requires actor in users
    requires u.createdBy == Some(actor.id)
    requires (actor.role == Admin && u.role == Manager) || (actor.role == Manager && u.role == Employee)
    ensures CreatorOk(users, u)
  {
    var j :| 0 <= j < |users| && users[j] == actor;
  }

  /** Inserting a task with a fresh id and a valid assignee, with its first audit row. */
  lemma {:induction false} AddTaskKeepsConsistent(users: seq<User>, tasks: seq<Task>, logs: seq<TaskLog>, t: Task, entry: TaskLog)
    requires Consistent(users, tasks, logs)
    requires FreshTaskId(tasks, t.id) && AssigneeOk(users, t) && entry.taskId == t.id
    ensures Consistent(users, tasks + [t], logs + [entry])
  {
    var tasks' := tasks + [t];
    var logs' := logs + [entry];
    forall i | 0 <= i < |tasks'| ensures AssigneeOk(users, tasks'[i]) {
      if i < |tasks| { assert tasks'[i] == tasks[i]; }
    }
    forall k | 0 <= k < |logs'| ensures NamesTask(tasks', logs'[k].taskId) {
      if k < |logs| {
        assert NamesTask(tasks, logs[k].taskId);
        var i :| 0 <= i < |tasks| && tasks[i].id == logs[k].taskId;
        assert tasks'[i] == tasks[i];
      } else {
        assert tasks'[|tasks|] == t;
      }
    }
  }

  /** Updating a task in place (same id) with a valid assignee, plus one audit row for it. */
  lemma {:induction false} UpdateTaskKeepsConsistent(users: seq<User>, tasks: seq<Task>, logs: seq<TaskLog>, i: nat, t: Task, entry: TaskLog)
    requires Consistent(users, tasks, logs) && i < |tasks|
    requires t.id == tasks[i].id && AssigneeOk(users, t) && entry.taskId == t.id
    ensures Consistent(users, tasks[i := t], logs + [entry])
  {
    var tasks' := tasks[i := t];
    var logs' := logs + [entry];
    forall k | 0 <= k < |logs'| ensures NamesTask(tasks', logs'[k].taskId) {
      if k < |logs| {
        assert NamesTask(tasks, logs[k].taskId);
        var m :| 0 <= m < |tasks| && tasks[m].id == logs[k].taskId;
        assert tasks'[m].id == tasks[m].id;
      } else {
        assert tasks'[i] == t;
      }
    }
  }

  // ---------------- deleting a task ----------------

  function RemoveAt<T>(s: seq<T>, i: nat): (r: seq<T>)
    requires i < |s|
    ensures |r| == |s| - 1
    ensures forall j :: 0 <= j < i ==> r[j] == s[j]
    ensures forall j :: i <= j < |r| ==> r[j] == s[j + 1]
  {
    s[..i] + s[i + 1..]
  }

  predicate NotAboutTask(id: Uuid, l: TaskLog) { l.taskId != id }

  predicate NotSpentOnTask(id: Uuid, l: TimeLog) { l.taskId != id }

  /** What ON DELETE CASCADE leaves of the task_logs table when task `id` goes. */
  function TaskLogsWithout(logs: seq<TaskLog>, id: Uuid): (r: seq<TaskLog>)
    ensures forall l :: l in r <==> l in logs && l.taskId != id
  {
    Where(logs, l => NotAboutTask(id, l))
  }

  /** What ON DELETE CASCADE leaves of the time_logs table when task `id` goes. */
  function TimeLogsWithout(logs: seq<TimeLog>, id: Uuid): (r: seq<TimeLog>)
    ensures forall l :: l in r <==> l in logs && l.taskId != id
  {
    Where(logs, l => NotSpentOnTask(id, l))
  }

  lemma {:induction false} DeleteTaskKeepsConsistent(users: seq<User>, tasks: seq<Task>, logs: seq<TaskLog>, i: nat)
    requires Consistent(users, tasks, logs) && i < |tasks|
    ensures Consistent(users, RemoveAt(tasks, i), TaskLogsWithout(logs, tasks[i].id))
  {
    var tasks' := RemoveAt(tasks, i);
    var logs' := TaskLogsWithout(logs, tasks[i].id);
    forall a, b | 0 <= a < b < |tasks'| ensures tasks'[a].id != tasks'[b].id {
      var a0 := if a < i then a else a + 1;
      var b0 := if b < i then b else b + 1;
      assert tasks'[a] == tasks[a0] && tasks'[b] == tasks[b0];
    }
    forall k | 0 <= k < |tasks'| ensures AssigneeOk(users, tasks'[k]) {
      var k0 := if k < i then k else k + 1;
      assert tasks'[k] == tasks[k0];
    }
    forall k | 0 <= k < |logs'| ensures NamesTask(tasks', logs'[k].taskId) {
      var l := logs'[k];
      assert l in logs';
      var k0 :| 0 <= k0 < |logs| && logs[k0] == l;
      assert NamesTask(tasks, l.taskId);
      var m :| 0 <= m < |tasks| && tasks[m].id == l.taskId;
      assert m != i;
      var m' := if m < i then m else m - 1;
      assert tasks'[m'] == tasks[m];
    }
  }

  // ---------------- time logs ----------------

  /** A time log for an existing task keeps the foreign key. */
  lemma {:induction false} AddTimeLogKeepsKey(tasks: seq<Task>, logs: seq<TimeLog>, l: TimeLog)
    requires TimeLogsNameTasks(tasks, logs) && NamesTask(tasks, l.taskId)
    ensures TimeLogsNameTasks(tasks, logs + [l])
  {
    forall k | 0 <= k < |logs + [l]| ensures NamesTask(tasks, (logs + [l])[k].taskId) {
      if k < |logs| { assert (logs + [l])[k] == logs[k]; }
    }
  }

  /** Any change of the tasks table that keeps every id that was there keeps the key. */
  lemma {:induction false} TasksKeepingIdsKeepKey(tasks: seq<Task>, tasks': seq<Task>, logs: seq<TimeLog>)
    requires TimeLogsNameTasks(tasks, logs)
    requires forall m :: 0 <= m < |tasks| ==> NamesTask(tasks', tasks[m].id)
    ensures TimeLogsNameTasks(tasks', logs)
  {
    forall k | 0 <= k < |logs| ensures NamesTask(tasks', logs[k].taskId) {
      assert NamesTask(tasks, logs[k].taskId);
      var m :| 0 <= m < |tasks| && tasks[m].id == logs[k].taskId;
      assert NamesTask(tasks', tasks[m].id);
    }
  }

  /** Appending a task or rewriting one in place under the same id keeps every id. */
  lemma TaskAppendKeepsIds(tasks: seq<Task>, t: Task)
    ensures forall m :: 0 <= m < |tasks| ==> NamesTask(tasks + [t], tasks[m].id)
  {
    forall m | 0 <= m < |tasks| ensures NamesTask(tasks + [t], tasks[m].id) {
      assert (tasks + [t])[m] == tasks[m];
    }
  }

  lemma TaskRewriteKeepsIds(tasks: seq<Task>, i: nat, t: Task)
    requires i < |tasks| && t.id == tasks[i].id
    ensures forall m :: 0 <= m < |tasks| ==> NamesTask(tasks[i := t], tasks[m].id)
  {
    forall m | 0 <= m < |tasks| ensures NamesTask(tasks[i := t], tasks[m].id) {
      assert tasks[i := t][m].id == tasks[m].id;
    }
  }

  /** Deleting task i and cascading its time logs keeps the key. */
  lemma {:induction false} DeleteTaskKeepsKey(tasks: seq<Task>, logs: seq<TimeLog>, i: nat)
    requires TimeLogsNameTasks(tasks, logs) && i < |tasks|
    ensures TimeLogsNameTasks(RemoveAt(tasks, i), TimeLogsWithout(logs, tasks[i].id))
  {
    var tasks' := RemoveAt(tasks, i);
    var logs' := TimeLogsWithout(logs, tasks[i].id);
    forall k | 0 <= k < |logs'| ensures NamesTask(tasks', logs'[k].taskId) {
      var l := logs'[k];
      assert l in logs';
      var k0 :| 0 <= k0 < |logs| && logs[k0] == l;
      assert NamesTask(tasks, l.taskId);
      var m :| 0 <= m < |tasks| && tasks[m].id == l.taskId;
      assert m != i;
      var m' := if m < i then m else m - 1;
      assert tasks'[m'] == tasks[m];
    }
  }
}
