/** The employee router (`/employee/{employee_id}/...`): the employee's own profile
    and password, and the daily time logs. */
module EmployeeRouter {
  import opened Domain
  import opened Queries
  import opened Store
  import opened Accounts

  /** `PATCH /employee/{employee_id}/profile`. Unlike the admin and manager routes,
      both the id and the employee role are checked. */
  method UpdateEmployeeProfile(db: Db, env: Env, actor: User, employeeId: Uuid, p: Payload)
    returns (r: Result<User>)
    modifies db`users
    ensures !ActsAs(actor, employeeId, Employee) ==> r == Err(Forbidden)
    ensures ActsAs(actor, employeeId, Employee) && p == map[] ==> r == Err(BadRequest)
    ensures ActsAs(actor, employeeId, Employee) && p != map[] ==> r == ProfileEdit(env, old(db.users), employeeId, p)
    ensures r.Ok? ==> db.users == ReplaceUser(old(db.users), FirstUser(old(db.users), ById(employeeId)).value, r.value)
    ensures r.Err? ==> db.users == old(db.users)
    ensures old(db.Valid()) ==> db.Valid()
  {
    if actor.id != employeeId || actor.role != Employee {
      return Err(Forbidden);
    }
    if p == map[] {
      return Err(BadRequest);
    }
    r := EditProfile(db, env, employeeId, p);
  }

  /** `PUT /employee/{employee_id}/reset_password`; here the new password is under
      "password", not "new_password". */
  method ResetEmployeePassword(db: Db, env: Env, actor: User, employeeId: Uuid, p: Payload)
    returns (r: Result<Uuid>)
    modifies db`users
    ensures var spec := PasswordReset(env, old(db.users), actor, employeeId, Employee, p, "password");
            && (spec.Err? ==> r == Err(spec.error) && db.users == old(db.users))
            && (spec.Ok? ==>
                  r == Ok(employeeId) && db.users == ReplaceUser(old(db.users), FirstUser(old(db.users), ById(employeeId)).value, spec.value))
    ensures old(db.Valid()) ==> db.Valid()
  {
    r := ResetPassword(db, env, actor, employeeId, Employee, p, "password");
  }

  // ================= create_log =================

  /** `create_log` as written. After the 403 and the empty-payload 400, the test
      against the future compares with `date.today()`, but `date` there is the local
      that holds the payload's "date" value (the module imports only `datetime`), so
      the call raises `AttributeError`, which nothing catches: every request that
      gets that far is a 500 and no time log is ever stored. */
  function CreateLogAsWritten(actor: User, employeeId: Uuid, p: Payload): (r: Result<TimeLog>)
    ensures r.Err?
    ensures !ActsAs(actor, employeeId, Employee) ==> r.error == Forbidden
    ensures ActsAs(actor, employeeId, Employee) && p == map[] ==> r.error == BadRequest
    ensures ActsAs(actor, employeeId, Employee) && p != map[] ==> r.error == InternalError
  {
    if !ActsAs(actor, employeeId, Employee) then Err(Forbidden)
    else if p == map[] then Err(BadRequest)
    else Err(InternalError)
  }

  /** A complete, well-formed log from the employee in person is refused with a 500. */
  lemma WellFormedLogRefused(actor: User)
    requires actor.role == Employee
    ensures var p := map["task_id" := "7", "date" := "2024-05-01", "hours" := "4", "notes" := "review"];
            CreateLogAsWritten(actor, actor.id, p) == Err(InternalError)
  {
    var p := map["task_id" := "7", "date" := "2024-05-01", "hours" := "4", "notes" := "review"];
    assert "task_id" in p;
  }

  /** The body `create_log` reads, once its values are typed. */
  datatype LogRequest = LogRequest(taskId: Uuid, date: Day, hours: Hundredths, notes: Option<string>)

  predicate SameDay(userId: Uuid, day: Day, l: TimeLog) {
    l.userId == userId && l.date == day
  }

  /** The hours column summed over the rows of one user and one day. */
  function DayHours(logs: seq<TimeLog>, userId: Uuid, day: Day): Hundredths
  {
    if logs == [] then 0
    else DayHours(logs[..|logs| - 1], userId, day)
         + (if SameDay(userId, day, logs[|logs| - 1]) then logs[|logs| - 1].hours else 0)
  }

  /** Only the rows of that user and that day count. */
  lemma {:induction false} DayHoursAppend(logs: seq<TimeLog>, l: TimeLog, userId: Uuid, day: Day)
    ensures DayHours(logs + [l], userId, day)
            == DayHours(logs, userId, day) + (if SameDay(userId, day, l) then l.hours else 0)
  {
    assert (logs + [l])[..|logs + [l]| - 1] == logs;
  }

  /** The `sum(l.hours for l in existing_hours)` loop. */
  method SumHours(logs: seq<TimeLog>, userId: Uuid, day: Day) returns (total: Hundredths)
    ensures total == DayHours(logs, userId, day)
  {
    total := 0;
    var k := 0;
    while k < |logs|
      invariant 0 <= k <= |logs|
      invariant total == DayHours(logs[..k], userId, day)
    {
      assert logs[..k + 1] == logs[..k] + [logs[k]];
      DayHoursAppend(logs[..k], logs[k], userId, day);
      if SameDay(userId, day, logs[k]) {
        total := total + logs[k].hours;
      }
      k := k + 1;
    }
    assert logs[..k] == logs;
  }

  /** What `create_log` evidently means to do: 403 unless the caller is the path
      employee; 400 without a body; 400 for a date after today; 500 when the task
      does not exist (the foreign key fails at commit, inside `except Exception`);
      otherwise a row whose hours are the hours already stored for that day plus
      the submitted ones. */
  function LogSubmission(tasks: seq<Task>, logs: seq<TimeLog>, actor: User, employeeId: Uuid,
                         req: Option<LogRequest>, today: Day, now: Instant, newId: Uuid): (r: Result<TimeLog>)
    ensures r == Err(Forbidden) <==> !ActsAs(actor, employeeId, Employee)
    ensures r.Ok? <==>
      ActsAs(actor, employeeId, Employee) && req.Some? && req.value.date <= today
      && NamesTask(tasks, req.value.taskId)
    ensures r == Err(BadRequest) <==>
      ActsAs(actor, employeeId, Employee) && (req.None? || req.value.date > today)
    ensures r == Err(InternalError) <==>
      ActsAs(actor, employeeId, Employee) && req.Some? && req.value.date <= today
      && !NamesTask(tasks, req.value.taskId)
    ensures r.Ok? ==>
      && req.Some? && req.value.date <= today && NamesTask(tasks, req.value.taskId)
      && r.value == TimeLog(newId, req.value.taskId, employeeId, req.value.date,
                            DayHours(logs, employeeId, req.value.date) + req.value.hours,
                            req.value.notes, now)
  {
    if !ActsAs(actor, employeeId, Employee) then Err(Forbidden)
    else match req
      case None => Err(BadRequest)
      case Some(q) =>
        if q.date > today then Err(BadRequest)
        else if !NamesTask(tasks, q.taskId) then Err(InternalError)
        else Ok(TimeLog(newId, q.taskId, employeeId, q.date, DayHours(logs, employeeId, q.date) + q.hours, q.notes, now))
  }

  /** `create_log`, corrected: stores the row `LogSubmission` describes and nothing else. */
  method CreateLog(db: Db, actor: User, employeeId: Uuid, req: Option<LogRequest>,
                   today: Day, now: Instant, newId: Uuid) returns (r: Result<TimeLog>)
    modifies db`timeLogs
    ensures r == LogSubmission(db.tasks, old(db.timeLogs), actor, employeeId, req, today, now, newId)
    ensures r.Ok? ==> db.timeLogs == old(db.timeLogs) + [r.value]
    ensures r.Err? ==> db.timeLogs == old(db.timeLogs)
    ensures old(db.Valid()) ==> db.Valid()
  {
    if actor.id != employeeId || actor.role != Employee {
      return Err(Forbidden);
    }
    if req.None? {
      return Err(BadRequest);
    }
    var q := req.value;
    if q.date > today {
      return Err(BadRequest);
    }
    if !NamesTask(db.tasks, q.taskId) {
      // The foreign key on task_id fails at commit, inside `except Exception`.
      return Err(InternalError);
    }
    var existing := SumHours(db.timeLogs, employeeId, q.date);
    var row := TimeLog(newId, q.taskId, employeeId, q.date, existing + q.hours, q.notes, now);
    if db.Valid() {
      AddTimeLogKeepsKey(db.tasks, db.timeLogs, row);
    }
    db.timeLogs := db.timeLogs + [row];
    r := Ok(row);
  }

  /** The stored hours are a running total, and the day's sum then counts earlier
      submissions again: after a row is stored, the day's sum is twice the previous
      sum plus the hours submitted. */
  lemma DayTotalAfterSubmission(tasks: seq<Task>, logs: seq<TimeLog>, actor: User, employeeId: Uuid,
                                req: Option<LogRequest>, today: Day, now: Instant, newId: Uuid)
    requires LogSubmission(tasks, logs, actor, employeeId, req, today, now, newId).Ok?
    ensures var row := LogSubmission(tasks, logs, actor, employeeId, req, today, now, newId).value;
            DayHours(logs + [row], employeeId, req.value.date)
              == 2 * DayHours(logs, employeeId, req.value.date) + req.value.hours
  {
    var row := LogSubmission(tasks, logs, actor, employeeId, req, today, now, newId).value;
    DayHoursAppend(logs, row, employeeId, req.value.date);
  }

  /** Three submissions of 4, 3 and 2 hours on one day are stored as 4, 7 and 13. */
  lemma ThreeSubmissions(tasks: seq<Task>, actor: User, taskId: Uuid, day: Day, now: Instant)
    requires actor.role == Employee && NamesTask(tasks, taskId)
    ensures var l1 := LogSubmission(tasks, [], actor, actor.id, Some(LogRequest(taskId, day, 4, None)), day, now, 1);
            && l1.Ok? && l1.value.hours == 4
            && var l2 := LogSubmission(tasks, [l1.value], actor, actor.id, Some(LogRequest(taskId, day, 3, None)), day, now, 2);
               && l2.Ok? && l2.value.hours == 7
               && var l3 := LogSubmission(tasks, [l1.value, l2.value], actor, actor.id, Some(LogRequest(taskId, day, 2, None)), day, now, 3);
                  && l3.Ok? && l3.value.hours == 13
  {
    var l1 := LogSubmission(tasks, [], actor, actor.id, Some(LogRequest(taskId, day, 4, None)), day, now, 1);
    DayHoursAppend([], l1.value, actor.id, day);
    assert [] + [l1.value] == [l1.value];
    var l2 := LogSubmission(tasks, [l1.value], actor, actor.id, Some(LogRequest(taskId, day, 3, None)), day, now, 2);
    DayHoursAppend([l1.value], l2.value, actor.id, day);
    assert [l1.value] + [l2.value] == [l1.value, l2.value];
  }

  /** A day with nothing stored yet keeps the submitted hours as they are. */
  lemma FirstLogOfDayKeepsHours(tasks: seq<Task>, logs: seq<TimeLog>, actor: User, employeeId: Uuid,
                                q: LogRequest, today: Day, now: Instant, newId: Uuid)
    requires forall k :: 0 <= k < |logs| ==> !SameDay(employeeId, q.date, logs[k])
    requires LogSubmission(tasks, logs, actor, employeeId, Some(q), today, now, newId).Ok?
    ensures LogSubmission(tasks, logs, actor, employeeId, Some(q), today, now, newId).value.hours == q.hours
  {
    NoSameDayNoHours(logs, employeeId, q.date);
  }

  lemma {:induction false} NoSameDayNoHours(logs: seq<TimeLog>, userId: Uuid, day: Day)
    requires forall k :: 0 <= k < |logs| ==> !SameDay(userId, day, logs[k])
    ensures DayHours(logs, userId, day) == 0
  {
    if logs != [] {
      NoSameDayNoHours(logs[..|logs| - 1], userId, day);
    }
  }
}
