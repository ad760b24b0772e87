/** The vocabulary shared by every part of the model: identifiers, the rows of the
    four tables (users, tasks, task_logs, time_logs), the HTTP errors an endpoint
    answers with, request payloads, and the foreign libraries the endpoints call. */
module Domain {

  datatype Option<+T> = None | Some(value: T)

  /** A row identifier (a UUID in the source). The model only ever compares
      identifiers for equality. */
  type Uuid = nat

  /** A point in time, in seconds (what `datetime.now()` returns). */
  type Instant = int

  /** A calendar date, as a day number (what `date.today()` returns). */
  type Day = int

  /** An amount of hours in hundredths: the hours column is `Numeric(5, 2)`. */
  type Hundredths = int

  datatype UserRole = Admin | Manager | Employee

  /** One enum for both `Task.status` and `TaskLog.status`: the source declares two
      enums with the same three members and maps one onto the other member by member. */
  datatype TaskStatus = Pending | InProgress | Completed

  datatype User = User(
    id: Uuid,
    username: string,
    email: string,
    passwordHash: string,
    fullName: Option<string>,
    role: UserRole,
    createdBy: Option<Uuid>,
    createdAt: Instant,
    isActive: bool)

  datatype Task = Task(
    id: Uuid,
    title: string,
    description: string,
    status: TaskStatus,
    assignedTo: Option<Uuid>,
    createdBy: Uuid,
    createdAt: Instant,
    startDate: Option<Instant>,
    dueDate: Option<Day>,
    completedAt: Option<Instant>)

  /** An audit row. Its auto-increment id is not modelled; the rows keep the order
      they were inserted in. */
  datatype TaskLog = TaskLog(taskId: Uuid, status: TaskStatus, createdAt: Instant)

  datatype TimeLog = TimeLog(
    id: Uuid,
    taskId: Uuid,
    userId: Uuid,
    date: Day,
    hours: Hundredths,
    notes: Option<string>,
    createdAt: Instant)

  /** The HTTP errors the endpoints raise. */
  datatype HttpError = BadRequest | Unauthorized | Forbidden | NotFound | Conflict | InternalError
  {
    function Code(): nat {
      match this
      case BadRequest => 400
      case Unauthorized => 401
      case Forbidden => 403
      case NotFound => 404
      case Conflict => 409
      case InternalError => 500
    }
  }

  /** What an endpoint answers: the response data, or the error it raised. */
  datatype Result<+T> = Ok(value: T) | Err(error: HttpError)

  /** A JSON request body read as a `dict` of strings. A missing body and `{}` are
      both falsy in Python, so both are the empty map here. */
  type Payload = map<string, string>

  /** `payload.get(key)` */
  function Get(p: Payload, key: string): (v: Option<string>)
    ensures v.Some? <==> key in p
    ensures v.Some? ==> v.value == p[key]
  {
    if key in p then Some(p[key]) else None
  }

  /** Python truthiness of an optional string: present and not empty. */
  predicate Given(v: Option<string>) {
    v.Some? && v.value != ""
  }

  /** The foreign code the endpoints call: pydantic's `EmailStr` check, passlib's
      bcrypt `hash`/`verify`, and `uuid.UUID` parsing of text. */
  datatype Env = Env(
    isEmail: string -> bool,
    hash: string -> string,
    verify: (string, string) -> bool,
    parseUuid: string -> Option<Uuid>)

  /** The actor is the user the path names and has the given role. */
  predicate ActsAs(actor: User, id: Uuid, role: UserRole) {
    actor.id == id && actor.role == role
  }
}
