/** employeeController.js: the employee list filtered by role name, the
    create with its required-field and duplicate-email checks, the partial
    update and the delete. The validators and unique keys of
    employee.model.js decide whether the database accepts a row. */
module EmployeeController {
  import opened Common
  import opened JsText
  import opened Tables
  import opened Records
  import opened Database

  const Genders: seq<string> := ["male", "female", "other"]

  /** The column validators of employee.model.js and the role foreign key
      accept `e`; `isEmail` and the date parse are abstract. */
  predicate ColumnsValid(e: Employee, roles: map<int, Role>, isEmail: string -> bool, parseDate: string -> Option<int>)
  {
    && (e.dob.Some? ==> parseDate(e.dob.value).Some?)
    && (e.gender.Some? ==> e.gender.value in Genders)
    && isEmail(e.email)
    && e.salary >= 0
    && e.roleId in roles
  }

  /** No row other than `id` has the email or the phone of `e`, under the
      collation. */
  predicate ContactsFree(id: int, e: Employee, employees: map<int, Employee>, collate: string -> string)
  {
    forall k :: k in employees && k != id ==>
      collate(employees[k].email) != collate(e.email) && collate(employees[k].phone) != collate(e.phone)
  }

  /* ---------------------------------------------------------------- list */

  /** The inner join on `roles.role_name` when a role is asked for, compared
      under the collation; without one every employee is listed. */
  predicate HasRole(e: Employee, role: Option<string>, roles: map<int, Role>, collate: string -> string)
  {
    role.None? || (e.roleId in roles && collate(roles[e.roleId].roleName) == collate(role.value))
  }

  function MatchingEmployees(employees: map<int, Employee>, roles: map<int, Role>, role: Option<string>,
                             collate: string -> string): (ids: seq<int>)
    ensures forall id :: id in ids <==> id in employees && HasRole(employees[id], role, roles, collate)
    ensures Increasing(ids)
  {
    Select(employees, (id, e) => HasRole(e, role, roles, collate))
  }

  /** The response of getEmployees: the count of all matching rows, the
      limit and offset it used, and the page. */
  datatype EmployeePage = EmployeePage(total: nat, limit: nat, offset: nat, ids: seq<int>, data: seq<Employee>)

  /** getEmployees. */
  method GetEmployees(db: Db, query: Fields) returns (status: int, result: EmployeePage)
    ensures status == OK || status == SERVER_ERROR
    ensures status == OK <==> SqlCount(IntParam(query, "limit", 10)).Some? && SqlCount(IntParam(query, "offset", 0)).Some?
    ensures status == OK ==>
              var matching := MatchingEmployees(db.employees, db.roles, Filter(query, "role"), db.collate);
              && result.limit == SqlCount(IntParam(query, "limit", 10)).value
              && result.offset == SqlCount(IntParam(query, "offset", 0)).value
              && result.total == |matching|
              && result.ids == Page(matching, result.offset, result.limit)
              && result.data == Rows(result.ids, db.employees)
  {
    result := EmployeePage(0, 0, 0, [], []);
    var limit := SqlCount(IntParam(query, "limit", 10));
    var offset := SqlCount(IntParam(query, "offset", 0));
    if limit.None? || offset.None? {
      return SERVER_ERROR, result;
    }
    var matching := MatchingEmployees(db.employees, db.roles, Filter(query, "role"), db.collate);
    var ids := Page(matching, offset.value, limit.value);
    PageIdsAreKeys(matching, db.employees, offset.value, limit.value);
    result := EmployeePage(|matching|, limit.value, offset.value, ids, Rows(ids, db.employees));
    status := OK;
  }

  /** The names under which models/index.js makes Employee's associations
      reachable: with no `as`, `belongsTo(Role)` is `Role` and
      `belongsToMany(Event)` is `Events`. */
  const EmployeeAssociations: set<string> := {"Role", "Events"}

  /** The alias getEmployees includes. */
  const EmployeeIncludes: seq<string> := ["role"]

  lemma EmployeeIncludesDoNotResolve()
    ensures !IncludesResolve(EmployeeIncludes, EmployeeAssociations)
  {
    assert EmployeeIncludes[0] !in EmployeeAssociations;
  }

  /** getEmployees as written: the query includes `Role` under an alias no
      association declares, so Sequelize rejects it and the catch answers
      500 for every request; the query it evidently intends is
      `GetEmployees`. */
  method GetEmployeesAsWritten(db: Db, query: Fields) returns (status: int, result: EmployeePage)
    ensures status == SERVER_ERROR && result == EmployeePage(0, 0, 0, [], [])
  {
    status, result := GetEmployees(db, query);
    EmployeeIncludesDoNotResolve();
    if !IncludesResolve(EmployeeIncludes, EmployeeAssociations) {
      status, result := SERVER_ERROR, EmployeePage(0, 0, 0, [], []);
    }
  }

  /** Without `limit` and `offset` the first ten employees are listed, and
      every listed employee holds the role asked for. */
  lemma ListedEmployeesHaveRole(employees: map<int, Employee>, roles: map<int, Role>, query: Fields,
                                collate: string -> string)
    requires "limit" !in query && "offset" !in query
    ensures var matching := MatchingEmployees(employees, roles, Filter(query, "role"), collate);
            var ids := Page(matching, SqlCount(IntParam(query, "offset", 0)).value, SqlCount(IntParam(query, "limit", 10)).value);
            && |ids| == (if |matching| < 10 then |matching| else 10)
            && forall i :: 0 <= i < |ids| ==>
                 && ids[i] == matching[i]
                 && (Truthy(query, "role") ==> collate(roles[employees[ids[i]].roleId].roleName) == collate(query["role"]))
  {
    assert SqlCount(IntParam(query, "offset", 0)) == Some(0);
    assert SqlCount(IntParam(query, "limit", 10)) == Some(10);
    var matching := MatchingEmployees(employees, roles, Filter(query, "role"), collate);
    var ids := Page(matching, 0, 10);
    forall i | 0 <= i < |ids|
      ensures ids[i] == matching[i]
      ensures Truthy(query, "role") ==> collate(roles[employees[ids[i]].roleId].roleName) == collate(query["role"])
    {
      assert matching[i] in matching;
    }
  }

  /* -------------------------------------------------------------- create */

  /** One of the six fields createEmployee requires is absent or empty. */
  predicate MissingRequired(body: Fields)
  {
    || !Truthy(body, "firstName") || !Truthy(body, "lastName") || !Truthy(body, "email")
    || !Truthy(body, "phone") || !Truthy(body, "roleId") || !Truthy(body, "salary")
  }

  /** `Employee.findOne({ where: { email } })` finds a row. */
  predicate EmailTaken(employees: map<int, Employee>, email: string, collate: string -> string)
  {
    exists k :: k in employees && collate(employees[k].email) == collate(email)
  }

  /** The row `Employee.create` builds from the body; the INTEGER and
      DECIMAL columns read the text as numbers, and the insert fails
      (`None`) when it is not one. */
  function NewEmployee(body: Fields): (r: Option<Employee>)
    requires !MissingRequired(body)
    ensures r.Some? ==>
              && r.value.firstName == body["firstName"] && r.value.lastName == body["lastName"]
              && r.value.email == body["email"] && r.value.phone == body["phone"]
              && r.value.dob == Get(body, "DOB") && r.value.gender == Get(body, "gender")
              && Some(r.value.roleId) == ToNumber(body["roleId"]) && Some(r.value.salary) == ToNumber(body["salary"])
    ensures r.None? <==> ToNumber(body["roleId"]).None? || ToNumber(body["salary"]).None?
  {
    var roleId := ToNumber(body["roleId"]);
    var salary := ToNumber(body["salary"]);
    if roleId.None? || salary.None? then None
    else Some(Employee(body["firstName"], body["lastName"], Get(body, "DOB"), Get(body, "gender"),
                       body["email"], body["phone"], roleId.value, salary.value))
  }

  /** The insert succeeds: the row converts, passes the validators and
      clashes with no email or phone already stored. */
  predicate Insertable(body: Fields, id: int, employees: map<int, Employee>, roles: map<int, Role>,
                       isEmail: string -> bool, parseDate: string -> Option<int>, collate: string -> string)
    requires !MissingRequired(body)
  {
    var row := NewEmployee(body);
    row.Some? && ColumnsValid(row.value, roles, isEmail, parseDate) && ContactsFree(id, row.value, employees, collate)
  }

  /** Inserting a row whose contacts are free keeps emails and phones unique. */
  lemma InsertKeepsContactsUnique(employees: map<int, Employee>, id: int, row: Employee, collate: string -> string)
    requires UniqueEmployeeContacts(employees, collate) && id !in employees
    requires ContactsFree(id, row, employees, collate)
    ensures UniqueEmployeeContacts(employees[id := row], collate)
  {
  }

  /** The INSERT itself: the row takes the next auto-increment key. */
  method InsertEmployee(db: Db, row: Employee) returns (id: int)
    requires db.Valid() && ContactsFree(db.nextEmployeeId, row, db.employees, db.collate)
    modifies db`employees, db`nextEmployeeId
    ensures db.Valid()
    ensures id == old(db.nextEmployeeId) && id !in old(db.employees)
    ensures db.employees == old(db.employees)[id := row] && db.nextEmployeeId == id + 1
  {
    id := db.nextEmployeeId;
    InsertKeepsContactsUnique(db.employees, id, row, db.collate);
    KeysBelowAfterInsert(db.employees, id, row);
    db.employees := db.employees[id := row];
    db.nextEmployeeId := id + 1;
  }

  /** createEmployee. */
  method CreateEmployee(db: Db, body: Fields, isEmail: string -> bool, parseDate: string -> Option<int>)
    returns (status: int, created: Option<int>)
    requires db.Valid()
    modifies db`employees, db`nextEmployeeId
    ensures db.Valid()
    ensures status == CREATED || status == BAD_REQUEST || status == SERVER_ERROR
    ensures status == BAD_REQUEST <==> MissingRequired(body) || EmailTaken(old(db.employees), body["email"], db.collate)
    ensures status == CREATED <==>
              && !MissingRequired(body) && !EmailTaken(old(db.employees), body["email"], db.collate)
              && Insertable(body, old(db.nextEmployeeId), old(db.employees), db.roles, isEmail, parseDate, db.collate)
    ensures status == CREATED ==>
              && created == Some(old(db.nextEmployeeId))
              && db.employees == old(db.employees)[created.value := NewEmployee(body).value]
              && db.nextEmployeeId == old(db.nextEmployeeId) + 1
    ensures status != CREATED ==>
              db.employees == old(db.employees) && db.nextEmployeeId == old(db.nextEmployeeId) && created.None?
  {
    created := None;
    if !Truthy(body, "firstName") || !Truthy(body, "lastName") || !Truthy(body, "email")
       || !Truthy(body, "phone") || !Truthy(body, "roleId") || !Truthy(body, "salary") {
      return BAD_REQUEST, created;
    }
    assert !MissingRequired(body);
    if EmailTaken(db.employees, body["email"], db.collate) {
      return BAD_REQUEST, created;
    }
    var row := NewEmployee(body);
    if row.None? || !ColumnsValid(row.value, db.roles, isEmail, parseDate)
       || !ContactsFree(db.nextEmployeeId, row.value, db.employees, db.collate) {
      assert !Insertable(body, db.nextEmployeeId, db.employees, db.roles, isEmail, parseDate, db.collate);
      return SERVER_ERROR, created;
    }
    var id := InsertEmployee(db, row.value);
    created := Some(id);
    status := CREATED;
  }

  /* -------------------------------------------------------------- update */

  /** The `updates` object updateEmployee builds; `None` leaves a column alone. */
  datatype EmployeeUpdates = EmployeeUpdates(
    firstName: Option<string>,
    lastName: Option<string>,
    dob: Option<string>,
    gender: Option<string>,
    email: Option<string>,
    phone: Option<string>,
    roleId: Option<int>,
    salary: Option<int>)

  /** Each text field that is supplied and non-empty; `roleId` and `salary`
      when `parseInt` / `parseFloat` read a number from them. */
  function UpdatesOf(body: Fields): EmployeeUpdates
  {
    EmployeeUpdates(
      Filter(body, "firstName"), Filter(body, "lastName"), Filter(body, "DOB"), Filter(body, "gender"),
      Filter(body, "email"), Filter(body, "phone"),
      if "roleId" in body then ParseInt(body["roleId"]) else None,
      if "salary" in body then ParseInt(body["salary"]) else None)
  }

  /** `employee.update(updates)`. */
  function Patched(e: Employee, u: EmployeeUpdates): Employee
  {
    Employee(
      if u.firstName.Some? then u.firstName.value else e.firstName,
      if u.lastName.Some? then u.lastName.value else e.lastName,
      if u.dob.Some? then u.dob else e.dob,
      if u.gender.Some? then u.gender else e.gender,
      if u.email.Some? then u.email.value else e.email,
      if u.phone.Some? then u.phone.value else e.phone,
      if u.roleId.Some? then u.roleId.value else e.roleId,
      if u.salary.Some? then u.salary.value else e.salary)
  }

  /** The validators and unique keys of the columns the update writes. */
  predicate UpdateAccepted(id: int, u: EmployeeUpdates, employees: map<int, Employee>, roles: map<int, Role>,
                           isEmail: string -> bool, parseDate: string -> Option<int>, collate: string -> string)
  {
    && (u.dob.Some? ==> parseDate(u.dob.value).Some?)
    && (u.gender.Some? ==> u.gender.value in Genders)
    && (u.email.Some? ==>
          && isEmail(u.email.value)
          && forall k :: k in employees && k != id ==> collate(employees[k].email) != collate(u.email.value))
    && (u.phone.Some? ==> forall k :: k in employees && k != id ==> collate(employees[k].phone) != collate(u.phone.value))
    && (u.roleId.Some? ==> u.roleId.value in roles)
    && (u.salary.Some? ==> u.salary.value >= 0)
  }

  /** The updates object, one guarded assignment per field. */
  method BuildUpdates(body: Fields) returns (updates: EmployeeUpdates)
    ensures updates == UpdatesOf(body)
  {
    var firstName, lastName, dob, gender, email, phone := None, None, None, None, None, None;
    var roleId, salary := None, None;
    if "firstName" in body && body["firstName"] != "" { firstName := Some(body["firstName"]); }
    if "lastName" in body && body["lastName"] != "" { lastName := Some(body["lastName"]); }
    if "DOB" in body && body["DOB"] != "" { dob := Some(body["DOB"]); }
    if "gender" in body && body["gender"] != "" { gender := Some(body["gender"]); }
    if "email" in body && body["email"] != "" { email := Some(body["email"]); }
    if "phone" in body && body["phone"] != "" { phone := Some(body["phone"]); }
    if "roleId" in body && ParseInt(body["roleId"]).Some? { roleId := ParseInt(body["roleId"]); }
    if "salary" in body && ParseInt(body["salary"]).Some? { salary := ParseInt(body["salary"]); }
    updates := EmployeeUpdates(firstName, lastName, dob, gender, email, phone, roleId, salary);
  }

  /** A text column takes the body's value exactly when it is supplied and
      non-empty; `roleId` and `salary` change exactly when they parse. */
  lemma PatchFollowsBody(e: Employee, body: Fields)
    ensures var r := Patched(e, UpdatesOf(body));
            && (if Truthy(body, "firstName") then r.firstName == body["firstName"] else r.firstName == e.firstName)
            && (if Truthy(body, "lastName") then r.lastName == body["lastName"] else r.lastName == e.lastName)
            && (if Truthy(body, "DOB") then r.dob == Some(body["DOB"]) else r.dob == e.dob)
            && (if Truthy(body, "gender") then r.gender == Some(body["gender"]) else r.gender == e.gender)
            && (if Truthy(body, "email") then r.email == body["email"] else r.email == e.email)
            && (if Truthy(body, "phone") then r.phone == body["phone"] else r.phone == e.phone)
            && (if "roleId" in body && ParseInt(body["roleId"]).Some? then r.roleId == ParseInt(body["roleId"]).value
                else r.roleId == e.roleId)
            && (if "salary" in body && ParseInt(body["salary"]).Some? then r.salary == ParseInt(body["salary"]).value
                else r.salary == e.salary)
  {
  }

  /** An accepted update keeps emails and phones unique. */
  lemma AcceptedUpdateKeepsContactsUnique(id: int, u: EmployeeUpdates, employees: map<int, Employee>, roles: map<int, Role>,
                                          isEmail: string -> bool, parseDate: string -> Option<int>, collate: string -> string)
    requires id in employees && UniqueEmployeeContacts(employees, collate)
    requires UpdateAccepted(id, u, employees, roles, isEmail, parseDate, collate)
    ensures UniqueEmployeeContacts(employees[id := Patched(employees[id], u)], collate)
  {
    var after := employees[id := Patched(employees[id], u)];
    forall a, b | a in after && b in after && a != b
      ensures collate(after[a].email) != collate(after[b].email) && collate(after[a].phone) != collate(after[b].phone)
    {
      if a != id && b != id {
        assert after[a] == employees[a] && after[b] == employees[b];
      }
    }
  }

  /** updateEmployee. */
  method UpdateEmployee(db: Db, id: int, body: Fields, isEmail: string -> bool, parseDate: string -> Option<int>)
    returns (status: int, updated: Option<Employee>)
    requires db.Valid()
    modifies db`employees
    ensures db.Valid()
    ensures status == OK || status == NOT_FOUND || status == SERVER_ERROR
    ensures status == NOT_FOUND <==> id !in old(db.employees)
    ensures status == OK <==>
              id in old(db.employees) && UpdateAccepted(id, UpdatesOf(body), old(db.employees), db.roles, isEmail, parseDate, db.collate)
    ensures status == OK ==>
              && updated == Some(Patched(old(db.employees)[id], UpdatesOf(body)))
              && db.employees == old(db.employees)[id := updated.value]
    ensures status != OK ==> db.employees == old(db.employees) && updated.None?
  {
    updated := None;
    if id !in db.employees {
      return NOT_FOUND, updated;
    }
    var updates := BuildUpdates(body);
    if !UpdateAccepted(id, updates, db.employees, db.roles, isEmail, parseDate, db.collate) {
      return SERVER_ERROR, updated;
    }
    AcceptedUpdateKeepsContactsUnique(id, updates, db.employees, db.roles, isEmail, parseDate, db.collate);
    db.employees := db.employees[id := Patched(db.employees[id], updates)];
    updated := Some(db.employees[id]);
    status := OK;
  }

  /* -------------------------------------------------------------- delete */

  /** deleteEmployee. */
  method DeleteEmployee(db: Db, id: int) returns (status: int)
    requires db.Valid()
    modifies db`employees
    ensures db.Valid()
    ensures status == NOT_FOUND <==> id !in old(db.employees)
    ensures status == OK <==> id in old(db.employees)
    ensures db.employees == old(db.employees) - {id}
  {
    if id !in db.employees {
      return NOT_FOUND;
    }
    db.employees := db.employees - {id};
    status := OK;
  }
}
