/** The queries the endpoints run against the store: a filter (`.filter(...)`),
    its first row (`.first()`), the rows in a given order (`.order_by(...)`) and
    one page of them (`.limit(...).offset(...)`). */
module Queries {
  import opened Domain
  import Text

  // ---------------- generic row operations ----------------

  /** Index of the first element satisfying `p`, as `.first()` returns it. */
  function FirstWhere<T>(s: seq<T>, p: T -> bool): (r: Option<nat>)
    ensures r.None? <==> forall i :: 0 <= i < |s| ==> !p(s[i])
    ensures r.Some? ==> r.value < |s| && p(s[r.value])
    ensures r.Some? ==> forall j :: 0 <= j < r.value ==> !p(s[j])
  {
    if |s| == 0 then None
    else if p(s[0]) then Some(0)
    else match FirstWhere(s[1..], p)
         case None => None
         case Some(k) => Some(k + 1)
  }

  /** Appending an element that does not match leaves the first match where it was. */
  lemma FirstWhereAppendMiss<T>(s: seq<T>, x: T, p: T -> bool)
    requires !p(x)
    ensures FirstWhere(s + [x], p) == FirstWhere(s, p)
  {
    var s' := s + [x];
    assert forall i :: 0 <= i < |s| ==> s'[i] == s[i];
    var a, b := FirstWhere(s', p), FirstWhere(s, p);
    if b.Some? {
      assert p(s'[b.value]);
      assert a.Some? && a.value <= b.value;
      assert p(s[a.value]);
    } else {
      assert forall i :: 0 <= i < |s'| ==> !p(s'[i]);
    }
  }

  /** The elements satisfying `p`, in table order. */
  function Where<T(!new)>(s: seq<T>, p: T -> bool): (r: seq<T>)
    ensures forall x :: x in r <==> x in s && p(x)
    ensures multiset(r) <= multiset(s)
  {
    if |s| == 0 then []
    else
      assert s == [s[0]] + s[1..];
      (if p(s[0]) then [s[0]] else []) + Where(s[1..], p)
  }

  function Min(a: int, b: int): int { if a <= b then a else b }

  /** `LIMIT limit OFFSET offset` */
  function Page<T>(s: seq<T>, offset: nat, limit: nat): (r: seq<T>)
    ensures |r| == if offset >= |s| then 0 else Min(limit, |s| - offset)
    ensures forall i :: 0 <= i < |r| ==> offset + i < |s| && r[i] == s[offset + i]
  {
    if offset >= |s| then [] else s[offset..offset + Min(limit, |s| - offset)]
  }

  // ---------------- ordering ----------------

  ghost predicate TotalPreorder<T(!new)>(le: (T, T) -> bool) {
    && (forall a, b :: le(a, b) || le(b, a))
    && (forall a, b, c :: le(a, b) && le(b, c) ==> le(a, c))
  }

  predicate SortedBy<T>(s: seq<T>, le: (T, T) -> bool) {
    forall i, j :: 0 <= i < j < |s| ==> le(s[i], s[j])
  }

  function InsertBy<T>(x: T, s: seq<T>, le: (T, T) -> bool): (r: seq<T>)
    ensures multiset(r) == multiset(s) + multiset{x}
  {
    if |s| == 0 then [x]
    else if le(x, s[0]) then [x] + s
    else
      assert s == [s[0]] + s[1..];
      [s[0]] + InsertBy(x, s[1..], le)
  }

  /** Insertion sort; elements that compare equal keep their table order. */
  function SortBy<T>(s: seq<T>, le: (T, T) -> bool): (r: seq<T>)
    ensures multiset(r) == multiset(s)
  {
    if |s| == 0 then []
    else
      assert s == [s[0]] + s[1..];
      InsertBy(s[0], SortBy(s[1..], le), le)
  }

  lemma {:induction false} InsertByKeepsSorted<T(!new)>(x: T, s: seq<T>, le: (T, T) -> bool)
    requires TotalPreorder(le) && SortedBy(s, le)
    ensures SortedBy(InsertBy(x, s, le), le)
  {
    if |s| > 0 && !le(x, s[0]) {
      var rest := InsertBy(x, s[1..], le);
      InsertByKeepsSorted(x, s[1..], le);
      assert le(s[0], x);
      forall y | y in rest ensures le(s[0], y) {
        assert y in multiset(rest);
        if y != x {
          assert y in multiset(s[1..]);
          assert y in s[1..];
        }
      }
      var r := [s[0]] + rest;
      forall i, j | 0 <= i < j < |r| ensures le(r[i], r[j]) {
        if i > 0 {
          assert r[i] == rest[i - 1] && r[j] == rest[j - 1];
        } else {
          assert r[j] in rest;
        }
      }
    } else if |s| > 0 {
      var r := [x] + s;
      forall i, j | 0 <= i < j < |r| ensures le(r[i], r[j]) {
        if i == 0 && j > 1 {
          assert le(x, s[0]) && le(s[0], s[j - 1]);
        }
      }
    }
  }

  lemma {:induction false} SortByIsSorted<T(!new)>(s: seq<T>, le: (T, T) -> bool)
    requires TotalPreorder(le)
    ensures SortedBy(SortBy(s, le), le)
  {
    if |s| > 0 {
      SortByIsSorted(s[1..], le);
      InsertByKeepsSorted(s[0], SortBy(s[1..], le), le);
    }
  }

  lemma PageKeepsSorted<T>(s: seq<T>, offset: nat, limit: nat, le: (T, T) -> bool)
    requires SortedBy(s, le)
    ensures SortedBy(Page(s, offset, limit), le)
  {
    var r := Page(s, offset, limit);
    forall i, j | 0 <= i < j < |r| ensures le(r[i], r[j]) {
      assert r[i] == s[offset + i] && r[j] == s[offset + j];
    }
  }

  /** Two consecutive pages make up the page that spans both: walking the pages
      with `offset += limit` visits every row once, in order. */
  lemma PagesConcatenate<T>(s: seq<T>, offset: nat, a: nat, b: nat)
    ensures Page(s, offset, a) + Page(s, offset + a, b) == Page(s, offset, a + b)
  {
    var p, q, w := Page(s, offset, a), Page(s, offset + a, b), Page(s, offset, a + b);
    assert |p + q| == |w|;
    forall i | 0 <= i < |w| ensures (p + q)[i] == w[i] {
      if i < |p| {
        assert (p + q)[i] == p[i];
      } else {
        assert (p + q)[i] == q[i - |p|];
      }
    }
  }

  // ---------------- the users table ----------------

  /** A conjunction of the column tests the routers filter users by; an absent
      part tests nothing. A `created_by` test never matches a NULL creator. */
  datatype UserFilter = UserFilter(
    id: Option<Uuid>, role: Option<UserRole>, createdBy: Option<Uuid>, activeOnly: bool)

  predicate UserMatches(f: UserFilter, u: User) {
    && (f.id.Some? ==> u.id == f.id.value)
    && (f.role.Some? ==> u.role == f.role.value)
    && (f.createdBy.Some? ==> u.createdBy == Some(f.createdBy.value))
    && (f.activeOnly ==> u.isActive)
  }

  function ById(id: Uuid): UserFilter { UserFilter(Some(id), None, None, false) }

  function ByIdRole(id: Uuid, role: UserRole): UserFilter { UserFilter(Some(id), Some(role), None, false) }

  /** The active users of `role` whom `creator` created. */
  function ActiveCreatedBy(creator: Uuid, role: UserRole): UserFilter {
    UserFilter(None, Some(role), Some(creator), true)
  }

  /** An active employee of `manager` with this id: the assignee test of the task routes. */
  function AssignableTo(id: Uuid, manager: Uuid): UserFilter {
    UserFilter(Some(id), Some(Employee), Some(manager), true)
  }

  function FirstUser(users: seq<User>, f: UserFilter): (r: Option<nat>)
    ensures r.None? <==> forall i :: 0 <= i < |users| ==> !UserMatches(f, users[i])
    ensures r.Some? ==> r.value < |users| && UserMatches(f, users[r.value])
    ensures r.Some? ==> forall j :: 0 <= j < r.value ==> !UserMatches(f, users[j])
  {
    FirstWhere(users, u => UserMatches(f, u))
  }

  /** Appending a user the filter rejects leaves the first match where it was. */
  lemma FirstUserAppendMiss(users: seq<User>, x: User, f: UserFilter)
    requires !UserMatches(f, x)
    ensures FirstUser(users + [x], f) == FirstUser(users, f)
  {
    var s' := users + [x];
    assert forall i :: 0 <= i < |users| ==> s'[i] == users[i];
    var a, b := FirstUser(s', f), FirstUser(users, f);
    if b.Some? {
      assert UserMatches(f, s'[b.value]);
      assert a.Some? && a.value <= b.value;
      assert UserMatches(f, users[a.value]);
    } else {
      assert forall i :: 0 <= i < |s'| ==> !UserMatches(f, s'[i]);
    }
  }

  function SelectUsers(users: seq<User>, f: UserFilter): (r: seq<User>)
    ensures forall u :: u in r <==> u in users && UserMatches(f, u)
    ensures multiset(r) <= multiset(users)
  {
    Where(users, u => UserMatches(f, u))
  }

  predicate ByUsername(a: User, b: User) {
    Text.StrLe(a.username, b.username)
  }

  lemma ByUsernameIsTotalPreorder()
    ensures TotalPreorder(ByUsername)
  {
    forall a: User, b: User ensures ByUsername(a, b) || ByUsername(b, a) {
      Text.StrLeTotal(a.username, b.username);
    }
    forall a: User, b: User, c: User | ByUsername(a, b) && ByUsername(b, c)
      ensures ByUsername(a, c)
    {
      Text.StrLeTransitive(a.username, b.username, c.username);
    }
  }

  /** `.order_by(User.username)` */
  function OrderByUsername(users: seq<User>): (r: seq<User>)
    ensures multiset(r) == multiset(users)
    ensures SortedBy(r, ByUsername)
  {
    ByUsernameIsTotalPreorder();
    SortByIsSorted(users, ByUsername);
    SortBy(users, ByUsername)
  }

  /** The active users of `role` that `creator` created, ordered by username: the
      team listings of the admin and manager routers. */
  function ActiveStaff(users: seq<User>, creator: Uuid, role: UserRole): (r: seq<User>)
    ensures forall u :: u in r <==> u in users && u.role == role && u.createdBy == Some(creator) && u.isActive
    ensures SortedBy(r, ByUsername)
    ensures multiset(r) == multiset(SelectUsers(users, ActiveCreatedBy(creator, role)))
  {
    var sel := SelectUsers(users, ActiveCreatedBy(creator, role));
    var r := OrderByUsername(sel);
    assert forall u :: u in r <==> u in multiset(r);
    assert forall u :: u in sel <==> u in multiset(sel);
    r
  }

  /** One page of `ActiveStaff`: at most `limit` of them, still in username order. */
  function StaffPage(users: seq<User>, creator: Uuid, role: UserRole, offset: nat, limit: nat): (r: seq<User>)
    ensures |r| <= limit
    ensures var n := |ActiveStaff(users, creator, role)|;
            |r| == if offset >= n then 0 else Min(limit, n - offset)
    ensures forall u :: u in r ==> u in users && u.role == role && u.createdBy == Some(creator) && u.isActive
    ensures SortedBy(r, ByUsername)
    ensures forall i :: 0 <= i < |r| ==>
      offset + i < |ActiveStaff(users, creator, role)| && r[i] == ActiveStaff(users, creator, role)[offset + i]
  {
    var all := ActiveStaff(users, creator, role);
    PageKeepsSorted(all, offset, limit, ByUsername);
    var r := Page(all, offset, limit);
    assert forall u :: u in r ==> u in all;
    r
  }

  // ---------------- the tasks table ----------------

  /** A conjunction of the column tests the task routes filter tasks by. */
  datatype TaskFilter = TaskFilter(id: Option<Uuid>, createdBy: Option<Uuid>, assignedTo: Option<Uuid>)

  predicate TaskMatches(f: TaskFilter, t: Task) {
    && (f.id.Some? ==> t.id == f.id.value)
    && (f.createdBy.Some? ==> t.createdBy == f.createdBy.value)
    && (f.assignedTo.Some? ==> t.assignedTo == Some(f.assignedTo.value))
  }

  function TaskById(id: Uuid): TaskFilter { TaskFilter(Some(id), None, None) }

  function FirstTask(tasks: seq<Task>, f: TaskFilter): (r: Option<nat>)
    ensures r.None? <==> forall i :: 0 <= i < |tasks| ==> !TaskMatches(f, tasks[i])
    ensures r.Some? ==> r.value < |tasks| && TaskMatches(f, tasks[r.value])
    ensures r.Some? ==> forall j :: 0 <= j < r.value ==> !TaskMatches(f, tasks[j])
  {
    FirstWhere(tasks, t => TaskMatches(f, t))
  }

  function SelectTasks(tasks: seq<Task>, f: TaskFilter): (r: seq<Task>)
    ensures forall t :: t in r <==> t in tasks && TaskMatches(f, t)
    ensures multiset(r) <= multiset(tasks)
  {
    Where(tasks, t => TaskMatches(f, t))
  }

  predicate NewestFirst(a: Task, b: Task) {
    a.createdAt >= b.createdAt
  }

  /** `.order_by(Task.created_at.desc())` */
  function OrderByNewest(tasks: seq<Task>): (r: seq<Task>)
    ensures multiset(r) == multiset(tasks)
    ensures SortedBy(r, NewestFirst)
  {
    assert TotalPreorder(NewestFirst);
    SortByIsSorted(tasks, NewestFirst);
    SortBy(tasks, NewestFirst)
  }
}
