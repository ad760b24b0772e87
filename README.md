# Task-Management-System: a Dafny model of the endpoint rules

This project models the business rules of the Task-Management-System's FastAPI
back end. The database is one `Store.Db` object with four tables held as
sequences: `users`, `tasks`, `taskLogs` and `timeLogs`. The routers change it in
place.

- **Admin, manager and employee routers.** Each endpoint is a method on the
  store. It answers `Ok(...)` or `Err(code)` and changes the store only when it
  answers `Ok`.
- **Shared user logic.** Profile edit, password reset, creation one level down
  and the activation switch are written once, in `Accounts`. Each is a
  specification function plus a method proved equal to it.
- **Task routes.** Create, update by manager or employee, view, list and delete.
  Each change of a task appends one `TaskLog` row with the resulting status.
  A delete cascades to the task's audit rows and time logs, as `ON DELETE
  CASCADE` does.
- **Time logs.** `create_log` is modelled twice: once as written, where it always
  fails, and once corrected (see Findings).
- **Security.** The claims `create_access_token` signs, `decode_access_token`'s
  401, and the chain of checks `get_current_user` applies. As written these read
  settings names that `config.py` does not declare; that version is modelled
  too (see Findings), and the rest reads the declared fields.
- **Validators.** `validate_uuid`, and `validate_password_strength`'s regular
  expression.

Every store method keeps the invariant `Db.Valid()`:

- user ids are unique, and so are task ids;
- the creator chain holds: an admin has no creator, a manager was created by an
  admin, an employee by a manager;
- every task's assignee is an employee of the task's creator;
- every task log and every time log names an existing task.

The foreign code is passed in as the parameter `Env`: pydantic's `EmailStr`,
bcrypt's `hash`/`verify` and `uuid.UUID` text parsing. JWT signing is passed in
as `encode`/`decode`. The clock is passed in as `now` and `today`, and the
generated UUID as `newId`. Path ids arrive already parsed.

Quirks of the source are modelled as written, each with a lemma:

- `delete_task`'s guard is inverted (`TaskRouter.CreatorCannotDelete`);
- the profile endpoints' conflict query only ever finds the caller's own row
  (`Accounts.RepeatedEditConflicts`, `Accounts.OtherUsersIgnored`);
- the employee task update checks the task's creator, not its assignee
  (`TaskRouter.TeammateMayUpdate`);
- the stored hours are a running day total (`EmployeeRouter.ThreeSubmissions`).

## Model

| member | source | states |
|---|---|---|
| Domain.Get | app/routers/admin.py:62-64 | `payload.get(key)`: a value exactly when the key is present, and then the one stored under it. |
| Store.Db.constructor | app/models/user.py:19-25 | An empty store satisfies the invariant: unique ids, the creator chain, assignees in their creator's team, logs naming tasks. |
| Store.Db.DeleteTaskAt | app/routers/tasks.py:275-276 | Removes exactly row i; ON DELETE CASCADE removes exactly the task logs and time logs naming it; the invariant is kept. |
| Store.ReplaceUser | app/routers/admin.py:91-101 | Replacing one row keeps every id, role and creator; only that row changes. |
| Store.SameShapeKeepsConsistent | app/routers/admin.py:75-101 | An update that keeps every row's id, role and creator keeps the store consistent. |
| Store.AddUserKeepsConsistent | app/routers/admin.py:168-181 | Inserting a user with a fresh id and a creator that fits the chain keeps the store consistent. |
| Store.ProvisionedCreatorOk | app/routers/admin.py:168-176 | A user created by an actor of the role directly above fits the admin -> manager -> employee chain. |
| Store.AddTaskKeepsConsistent | app/routers/tasks.py:68-83 | Inserting a task with a fresh id and a valid assignee, plus its first audit row, keeps the store consistent. |
| Store.UpdateTaskKeepsConsistent | app/routers/tasks.py:135-169 | Rewriting a task under its own id with a valid assignee, plus one audit row, keeps the store consistent. |
| Store.RemoveAt | app/routers/tasks.py:275 | Removing row i keeps the rows before it and shifts the rows after it down by one. |
| Store.TaskLogsWithout | app/models/task_log.py:15 | The cascade keeps exactly the audit rows of the other tasks. |
| Store.TimeLogsWithout | app/models/time_log.py:13 | The cascade keeps exactly the time logs of the other tasks. |
| Store.DeleteTaskKeepsConsistent | app/routers/tasks.py:275-276 | Deleting a task and cascading its audit rows keeps the store consistent. |
| Store.AddTimeLogKeepsKey | app/models/time_log.py:13 | A time log for an existing task keeps the task_id foreign key. |
| Store.TasksKeepingIdsKeepKey | app/models/time_log.py:13 | A tasks table that keeps every id keeps the time-log foreign key. |
| Store.TaskAppendKeepsIds | app/routers/tasks.py:78-80 | Appending a task keeps every existing task id. |
| Store.TaskRewriteKeepsIds | app/routers/tasks.py:164-166 | Rewriting a task under its own id keeps every task id. |
| Store.DeleteTaskKeepsKey | app/models/time_log.py:13 | Deleting a task with the ON DELETE CASCADE of its time logs keeps the foreign key. |
| Queries.FirstWhere | app/routers/admin.py:69 | `.first()`: the index of the first match, none before it; none only if nothing matches. |
| Queries.FirstWhereAppendMiss | app/routers/admin.py:69 | Appending a row that does not match leaves the first match unchanged. |
| Queries.Where | app/routers/admin.py:229-233 | `.filter()`: exactly the rows that satisfy the test, drawn from the table. |
| Queries.Page | app/routers/admin.py:233 | `LIMIT`/`OFFSET`: at most `limit` rows, the ones starting at `offset`, in order. |
| Queries.PagesConcatenate | app/routers/tasks.py:208 | Two consecutive pages together are the page that spans both. |
| Queries.InsertBy | app/routers/admin.py:233 | Inserting into the order adds exactly that element. |
| Queries.SortBy | app/routers/admin.py:233 | Sorting is a permutation of the rows. |
| Queries.InsertByKeepsSorted | app/routers/admin.py:233 | Inserting into a sorted sequence under a total preorder keeps it sorted. |
| Queries.SortByIsSorted | app/routers/admin.py:233 | Sorting under a total preorder gives a sorted sequence. |
| Queries.PageKeepsSorted | app/routers/admin.py:233 | A page of a sorted sequence is sorted. |
| Queries.FirstUser | app/routers/admin.py:384 | The first user the filter matches, none before it; none only if no user matches. |
| Queries.FirstUserAppendMiss | app/routers/admin.py:85 | Adding a user the filter rejects does not move the first match. |
| Queries.SelectUsers | app/routers/admin.py:229-232 | Exactly the users the filter matches. |
| Queries.ByUsernameIsTotalPreorder | app/routers/admin.py:233 | Ordering by username is total and transitive. |
| Queries.OrderByUsername | app/routers/admin.py:233 | A permutation of the users, sorted by username. |
| Queries.ActiveStaff | app/routers/admin.py:237-241 | The active users of a role created by a creator, no others, in username order. |
| Queries.StaffPage | app/routers/manager.py:231-235 | Exactly the `LIMIT`/`OFFSET` page of those users: its length is `min(limit, n - offset)` (0 past the end), element i is user `offset + i`, sorted. |
| Queries.FirstTask | app/routers/tasks.py:128 | The first task the filter matches, none before it; none only if no task matches. |
| Queries.SelectTasks | app/routers/tasks.py:208 | Exactly the tasks the filter matches. |
| Queries.OrderByNewest | app/routers/tasks.py:208 | A permutation of the tasks, newest `created_at` first. |
| Text.StripStart | app/routers/admin.py:78 | Removes exactly the leading white space. |
| Text.StripEnd | app/routers/admin.py:78 | Removes exactly the trailing white space. |
| Text.Strip | app/routers/admin.py:78 | `str.strip()`: a slice with no white space at either end and only white space outside it. |
| Text.StripIdempotent | app/routers/admin.py:89 | Stripping an already stripped email gives the same text. |
| Text.Lower | app/routers/admin.py:85 | `lower()`: same length, capitals become small letters, every other character stays. |
| Text.LowerIdempotent | app/routers/admin.py:89 | Lowering a lowered email gives the same text. |
| Text.StrLeTotal | app/routers/admin.py:233 | Any two usernames are ordered one way or the other. |
| Text.StrLeTransitive | app/routers/admin.py:233 | The username order is transitive. |
| Validators.ValidateUuid | app/utils/validators.py:5-11 | A UUID comes back unchanged; text parses or gives 400; `None` raises an uncaught `TypeError` (500). |
| Validators.FirstLine | app/utils/validators.py:15 | What a `.*` lookahead can see: the text before the first line feed. |
| Validators.ValidatePasswordStrength | app/utils/validators.py:13-21 | The pattern as written: accepted exactly when it matches, otherwise 400. |
| Validators.PatternMatchesIff | app/utils/validators.py:15 | The pattern accepts a strong password, or a strong password followed by one line feed. |
| Validators.FirstLineOfAllowed | app/utils/validators.py:15 | When the first k characters are from the class and a line feed or the end follows, they are the first line. |
| Validators.TrailingLineFeedAccepted | app/utils/validators.py:15 | "Abcdef1!\n" is accepted although it is not a strong password. |
| Validators.StrictPasswordCheck | app/utils/validators.py:15-20 | Accepted exactly when 8-64 allowed characters contain a small letter, a capital, a digit and a special character. |
| Validators.StrictWhereAsWrittenAccepts | app/utils/validators.py:15 | Both checks agree except on strong passwords with a line feed appended. |
| Security.Lifetime | app/core/security.py:24 | A non-zero delta is used as given; a missing or zero delta falls back to the default minutes. |
| Security.TokenClaims | app/core/security.py:23-25 | The caller's claims plus "exp" = now + lifetime; other claims stay as they were. |
| Security.DecodeAccessToken | app/core/security.py:29-34 | With the declared settings fields: any decode failure is a 401; otherwise the decoded claims. |
| Security.GetCurrentUser | app/core/security.py:36-67 | With the declared settings fields, in order: 401 for a bad token or a missing or `null` "sub"; 500 for a subject the query cannot bind; 404 when no user has the id; 403 when that user is inactive; no other error, and success exactly when the subject's first row exists and is active, giving that row. |
| Security.IssuedTokenResolves | app/core/security.py:22-67 | A token issued for a user's id resolves to that user if active, and to 403 if not. |
| Security.CreateAccessTokenAsWritten | app/core/security.py:22-27 | As written: the undeclared settings names raise, so token creation always fails (500). |
| Security.DecodeAccessTokenAsWritten | app/core/security.py:29-34 | As written: the `AttributeError` is not a `JWTError`, so every decode is a 500, never a 401. |
| Security.GetCurrentUserAsWritten | app/core/security.py:36-38 | As written: every request that needs the current user is a 500. |
| Security.IssuedTokenRefusedAsWritten | app/core/security.py:24-31 | The three names read are not declared; a token the declared fields resolve to its active user is a 500 as written. |
| Accounts.ProfileEdit | app/routers/admin.py:69-115 | 404 without a row; 400 for a bad email; 409 when the caller's own row has the email or username; 500 when a stripped value is wider than its column (username 150, email and full name 255); succeeds exactly when none of these holds, and then only the given fields change (email stripped and lowered, username and name stripped). |
| Accounts.RepeatedEditConflicts | app/routers/admin.py:85-95 | Resubmitting an accepted email or username change is a 409. |
| Accounts.OtherUsersIgnored | app/routers/admin.py:85-95 | Other users' rows never affect the outcome, even with the same email. |
| Accounts.SelfQueryIgnoresOthers | app/routers/admin.py:85 | The self-conflict query ignores rows with other ids. |
| Accounts.EditProfile | app/routers/admin.py:66-101 | Performs `ProfileEdit`: replaces exactly the caller's row on success; leaves the table unchanged on error. |
| Accounts.PasswordReset | app/routers/admin.py:326-348 | 403 unless self with the role; 400 for an empty body, then for a missing new password, then for a missing current password; 403 for a wrong current password; 500 exactly when the row is missing; otherwise only the hash changes. |
| Accounts.WrongPasswordRefused | app/routers/admin.py:338-340 | A wrong current password is a 403 whatever else the store holds. |
| Accounts.ResetPassword | app/routers/admin.py:326-352 | Performs `PasswordReset` on the store, changing only the caller's row. |
| Accounts.Provision | app/routers/admin.py:143-188 | 403 exactly when not self with the role; 400 exactly for an empty body, a missing field or a bad email; 409 exactly on a case-insensitive duplicate; 500 exactly when a stored value is wider than its column; no other error, and success exactly when every check passes, giving an active row one level down, created by the actor, email lowered. |
| Accounts.RepeatedProvisionConflicts | app/routers/admin.py:164-166 | Creating the same user twice is a 409 when a submitted value was already stripped. |
| Accounts.ProvisionUser | app/routers/admin.py:143-181 | Appends exactly the `Provision` row on success; keeps the creator chain. |
| Accounts.SetActive | app/routers/admin.py:398 | Only that row's `is_active` changes. |
| Accounts.ActivationGate | app/routers/admin.py:378-392 | Only 403, 400 or 404: 400 exactly for self; 404 exactly without a row of that role; 403 for another creator's row or a flag already in that state; succeeds exactly otherwise, with the row to switch. |
| Accounts.DeactivateThenActivate | app/routers/admin.py:378-438 | Deactivating and then activating succeeds and restores the table exactly. |
| Accounts.SwitchNotRepeatable | app/routers/admin.py:391-392 | A successful switch repeated is a 403. |
| Accounts.SwitchActive | app/routers/admin.py:378-400 | Performs `ActivationGate`, then sets only that flag. |
| AdminRouter.UpdateAdminProfile | app/routers/admin.py:56-60 | 403 when the id differs (role unchecked), 400 on an empty body, then `ProfileEdit`. |
| AdminRouter.CreateManager | app/routers/admin.py:133-181 | An active manager created by the path admin, appended to the users. |
| AdminRouter.ListManagers | app/routers/admin.py:223-241 | 400 above 100; 403 only for a non-admin stranger; each entry is a listed manager with all of its active employees. |
| AdminRouter.ListedManagerMeaning | app/routers/admin.py:229-241 | A listed manager is an active manager of this admin; its employees are exactly its active employees, sorted. |
| AdminRouter.GetManager | app/routers/admin.py:278-289 | 400 exactly above 100; 403 exactly for another admin; 404 exactly without such a manager of this admin; otherwise the manager with exactly the `StaffPage` of its active employees. |
| AdminRouter.GetManagerOpenToNonAdmins | app/routers/admin.py:281-282 | A manager or employee caller never gets the 403. |
| AdminRouter.ResetAdminPassword | app/routers/admin.py:317-352 | `PasswordReset` with the new password under "new_password". |
| AdminRouter.DeactivateManager | app/routers/admin.py:367-400 | `ActivationGate` for a manager of this admin, then `is_active` false. |
| AdminRouter.ActivateManager | app/routers/admin.py:410-440 | `ActivationGate` for an inactive manager of this admin, then `is_active` true. |
| ManagerRouter.UpdateManagerProfile | app/routers/manager.py:58-101 | 403 when the id differs (role unchecked), 400 on an empty body, then `ProfileEdit`. |
| ManagerRouter.CreateEmployee | app/routers/manager.py:145-179 | An active employee created by the path manager, appended to the users. |
| ManagerRouter.ListEmployees | app/routers/manager.py:225-235 | 400 above 100; 403 only for a non-admin stranger; no other error, so otherwise exactly the `StaffPage` of the manager's active employees, in username order. |
| ManagerRouter.GetEmployee | app/routers/manager.py:263-272 | Only 403 or 404: 403 exactly for another manager, or for another manager's employee unless the caller is an admin; 404 exactly without such an employee; otherwise that employee. |
| ManagerRouter.ListedEmployeeRetrievable | app/routers/manager.py:225-272 | With unique ids, every employee on a listed page is what `get_employee` returns to the same caller. |
| ManagerRouter.ResetManagerPassword | app/routers/manager.py:284-325 | `PasswordReset` with the new password under "new_password". |
| ManagerRouter.DeactivateEmployee | app/routers/manager.py:345-362 | `ActivationGate` for an employee of this manager, then `is_active` false. |
| ManagerRouter.ActivateEmployee | app/routers/manager.py:388-405 | `ActivationGate` for an inactive employee of this manager, then `is_active` true. |
| EmployeeRouter.UpdateEmployeeProfile | app/routers/employee.py:57-100 | 403 unless self with role employee, 400 on an empty body, then `ProfileEdit`. |
| EmployeeRouter.ResetEmployeePassword | app/routers/employee.py:142-165 | `PasswordReset` with the new password under "password". |
| EmployeeRouter.CreateLogAsWritten | app/routers/employee.py:191-214 | 403 or 400 first; every other request fails with a 500, so no log is ever stored. |
| EmployeeRouter.WellFormedLogRefused | app/routers/employee.py:197-214 | A complete log from the employee is refused with a 500. |
| EmployeeRouter.DayHoursAppend | app/routers/employee.py:218-221 | A new row adds to that day's sum only if it is the same user and date. |
| EmployeeRouter.SumHours | app/routers/employee.py:222 | The loop's total is the day's sum of stored hours. |
| EmployeeRouter.LogSubmission | app/routers/employee.py:191-227 | 403 exactly when not self as employee; 400 exactly without a body or for a future date; 500 exactly for an unknown task; succeeds exactly otherwise, with a row for the employee holding the day's stored hours plus the submitted ones. |
| EmployeeRouter.CreateLog | app/routers/employee.py:182-229 | Appends exactly the `LogSubmission` row and leaves existing rows alone. |
| EmployeeRouter.DayTotalAfterSubmission | app/routers/employee.py:218-224 | After a submission the day's sum is twice the previous sum plus the new hours. |
| EmployeeRouter.ThreeSubmissions | app/routers/employee.py:218-224 | 4, 3, then 2 hours on one day are stored as 4, 7, 13. |
| EmployeeRouter.FirstLogOfDayKeepsHours | app/routers/employee.py:222-224 | With nothing stored for the day, the submitted hours are stored unchanged. |
| EmployeeRouter.NoSameDayNoHours | app/routers/employee.py:218-221 | With no row for that user and date, the day's sum is 0. |
| TaskRouter.TeamMemberFound | app/routers/tasks.py:55-60 | The assignee query finds a row exactly when an active employee of the manager has the id. |
| TaskRouter.TaskCreation | app/routers/tasks.py:39-77 | 403 exactly when not the path manager; 400 exactly for an empty title or description, a title over 255 or an assignee outside the team; 500 exactly without an assignee; succeeds exactly otherwise, with a pending task assigned to that employee. |
| TaskRouter.CreateTask | app/routers/tasks.py:31-83 | Appends that task and exactly one pending `TaskLog` for it. |
| TaskRouter.Reassign | app/routers/tasks.py:135-150 | An unparsable id is 400; a new assignee must be in the team (else 400), then the status becomes pending; the current assignee changes nothing. |
| TaskRouter.Retext | app/routers/tasks.py:152-156 | A non-empty title or description replaces the old one; nothing else changes. |
| TaskRouter.ManagerTaskUpdate | app/routers/tasks.py:119-169 | 403 exactly when not the path manager; 400 on an empty body; 404 exactly when missing or another manager's; for the manager's own task, 400 when completed or when `Reassign` refuses, 500 when the new title is over 255, otherwise `Retext` of the `Reassign` result; creator and dates kept. |
| TaskRouter.SameAssigneeKeepsStatus | app/routers/tasks.py:137-150 | Resubmitting the current assignee keeps the status. |
| TaskRouter.UpdateTaskByManager | app/routers/tasks.py:108-169 | Rewrites exactly that task and appends one `TaskLog` with its resulting status. |
| TaskRouter.MapStatus | app/routers/tasks.py:328-334 | Exactly the five spellings are accepted, each mapped to its status. |
| TaskRouter.StatusNameRoundTrip | app/models/task.py:10-13 | Each status's own value ("in progress" too) maps back to that status. |
| TaskRouter.EmployeeTaskUpdate | app/routers/tasks.py:303-340 | 403 exactly when not self or without "status"; 400 on an empty body; 500 without the employee row; 404 when the task is missing or not by the employee's manager; 400 when completed; 500 for an unknown status; otherwise only the status changes. |
| TaskRouter.UpdateTaskByEmployee | app/routers/tasks.py:292-342 | Rewrites exactly that task's status and appends one `TaskLog` with it. |
| TaskRouter.TeammateMayUpdate | app/routers/tasks.py:313-317 | An employee may complete a teammate's task: the assignee is not checked. |
| TaskRouter.CompletedIsFinal | app/routers/tasks.py:132-133 | Neither update route accepts a change to a completed task. |
| TaskRouter.GetTaskForManager | app/routers/tasks.py:238-244 | Only 404 or 403: 404 exactly when missing; 403 exactly for a manager other than the creator; otherwise that task. |
| TaskRouter.GetTaskForEmployee | app/routers/tasks.py:373-379 | Only 404 or 403: 404 exactly when missing; 403 exactly for an employee it is not assigned to; otherwise that task. |
| TaskRouter.CreatedTaskReadable | app/routers/tasks.py:68-83 | A manager reads back exactly the task just created. |
| TaskRouter.DeleteGate | app/routers/tasks.py:266-272 | Only 404 or 403: 404 exactly when missing; 403 exactly when the caller is the manager who created it; otherwise the row to delete. |
| TaskRouter.CreatorCannotDelete | app/routers/tasks.py:270-272 | The creating manager can never delete the task; an admin or employee always can. |
| TaskRouter.DeleteTask | app/routers/tasks.py:258-276 | `DeleteGate`, then `Db.DeleteTaskAt`: removes exactly that task and cascades away its task logs and time logs. |
| TaskRouter.DeletedTaskGone | app/routers/tasks.py:275 | With unique ids, no task keeps the deleted id. |
| TaskRouter.TaskPage | app/routers/tasks.py:208 | Exactly the `LIMIT`/`OFFSET` page of the matching tasks newest first: its length is `min(limit, n - offset)` (0 past the end), element i is task `offset + i`. |
| TaskRouter.ListManagerTasks | app/routers/tasks.py:202-208 | 403 first, then 400 above 100; no other error, so otherwise exactly the `TaskPage` of the manager's own tasks. |
| TaskRouter.ListEmployeeTasks | app/routers/tasks.py:403-409 | 403 first, then 400 above 100; no other error, so otherwise exactly the `TaskPage` of the employee's assigned tasks. |
| TaskRouter.ManagerPagesConcatenate | app/routers/tasks.py:208 | Two consecutive pages of the model's listing are the page spanning both; this rests on the model's fixed order among equal `created_at` values (see Left out). |

## Left out

- The foreign libraries are parameters: EmailStr, bcrypt, `uuid.UUID` parsing, and JWT signing and decoding. Nothing is assumed about them beyond what each lemma requires.
- Path ids arrive parsed. `validate_uuid` on a path segment is modelled once, as `Validators.ValidateUuid`. Its 400 for malformed path text is not repeated in each endpoint.
- FastAPI's own request validation is not modelled. That covers the 422s for `limit < 1` and for pydantic's `TaskCreate` title rules. Body values are strings, and `limit`/`offset` are `nat`.
- Sessions and transactions are not modelled: locks, commit and rollback, and the `OperationalError`/`IntegrityError` mappings to 409/500. Each endpoint is atomic on the store. The unique constraints on username and email are therefore not modelled. Column widths are modelled where a handler lets an over-long value through (user text columns, task title), on a database that enforces them; `password_hash` is taken to fit, as bcrypt hashes are 60 characters.
- `lower()` and SQL `lower()` are ASCII-only here. Ordering by username uses code points, not the database collation.
- Validators.ValidatePasswordStrength: `\d` is taken as the ASCII digits, but Python's `\d` also matches other Unicode digits. The validator is not called by any router.
- Security.GetCurrentUser: the `payload is None` test cannot fire, because decoding raises first. The model reads the declared settings fields (30 minutes is the configured lifetime); the names as written are modelled separately (see Findings).
- Queries.OrderByNewest: where several tasks share one `created_at`, the database's order among them is unspecified and may differ between queries. The model keeps table order, so TaskPage, ListManagerTasks, ListEmployeeTasks and ManagerPagesConcatenate fix that order where the database does not.
- TaskRouter.EmployeeTaskUpdate: tasks.py:313 filters on the raw path text. The model treats it as the parsed id.
- TaskRouter.TaskCreation: the `if not payload` test at tasks.py:42 cannot fire, because a pydantic model is always truthy.
- EmployeeRouter.CreateLog: the request fields are typed (`LogRequest`). A missing or text `date` fails at the comparison with today (a `TypeError`, 500); other missing or mistyped fields fail at commit (500). Neither path is modelled. `Numeric(5,2)` overflow of the summed hours is not modelled either.
- The display-only `employee.role = "Employee"` assignment in get_employee is not modelled. Response bodies, templates, `auth.py`, `script.py` and pagination helpers are outside the model.
- `completed_at` is never set by any endpoint, and the model keeps it as it was.

## Findings

| source | as written | input that shows it | evidently intended | confidence | as-written member | corrected member |
|---|---|---|---|---|---|---|
| app/routers/employee.py:214 | `date.today()` is called on the local `date`, which holds the payload's "date" value (the module imports only `datetime`); the `AttributeError` escapes, so every log submission that passes the 403 and 400 checks is a 500 and nothing is stored | an employee posting `{"task_id": "7", "date": "2024-05-01", "hours": "4", "notes": "review"}` to its own `/employee/{id}/logs` | compare the date with today's date, reject a future date with 400, and store the row | not executed | EmployeeRouter.WellFormedLogRefused | EmployeeRouter.CreateLog |
| app/utils/validators.py:15 | `$` without `\Z` also matches before a final line feed, so a strong password followed by `"\n"` is accepted | `"Abcdef1!\n"` | accept only 8 to 64 characters of the class, with all four kinds present | not executed | Validators.TrailingLineFeedAccepted | Validators.StrictPasswordCheck |
| app/core/security.py:24 | `settings.JWT_SECRET_KEY`, `settings.JWT_ALGORITHM` and `settings.JWT_ACCESS_TOKEN_EXPIRE_MINUTES` are read, but the `Settings` class declares `secret_key`, `algorithm` and `access_token_expire_minutes`; the `AttributeError` is not a `JWTError`, so every token creation and every decode is a 500 | any request carrying any bearer token, e.g. one issued for an active user | read the declared fields: a valid token resolves to its user, a bad one is a 401 | not executed | Security.IssuedTokenRefusedAsWritten | Security.GetCurrentUser |
