/** roleController.js: list, look-up, create, update and delete over the
    `roles` table. Each handler hands the request body to the table as it
    is, so the columns of role.model.js decide what is stored: `role_name`
    and `dept_name` may not be null, `dept_name` must match one of the
    department names under the collation (the ENUM then stores that name),
    and the salary bounds are DECIMAL numbers. */
module RoleController {
  import opened Common
  import opened JsText
  import opened Tables
  import opened Records
  import opened Database

  /** The four attribute names are distinct. */
  lemma RoleKeysDistinct()
    ensures "role_name" != "dept_name" && "role_name" != "min_salary" && "role_name" != "max_salary"
    ensures "dept_name" != "min_salary" && "dept_name" != "max_salary" && "min_salary" != "max_salary"
  {
    assert "role_name"[0] == 'r' && "dept_name"[0] == 'd' && "min_salary"[0] == 'm';
    assert "max_salary"[0] == 'm' && "min_salary"[1] == 'i' && "max_salary"[1] == 'a';
  }

  /** A DECIMAL salary bound: kept when the body does not name it, otherwise
      the number its text converts to; `None` when the text is not a number
      and the statement fails. */
  function SalaryColumn(body: Fields, key: string, current: Option<int>): (r: Option<Option<int>>)
    ensures key !in body ==> r == Some(current)
    ensures key in body ==> (r.Some? <==> ToNumber(body[key]).Some?)
    ensures key in body && r.Some? ==> r.value == ToNumber(body[key])
  {
    if key !in body then Some(current)
    else if ToNumber(body[key]).None? then None
    else Some(ToNumber(body[key]))
  }

  /** The row `Role.create(req.body)` stores, or `None` when the insert fails:
      a NOT NULL column is missing, the department matches none of the enum
      values, or a salary bound is not a number. */
  function NewRole(body: Fields, collate: string -> string): (r: Option<Role>)
    ensures r.Some? <==>
              && "role_name" in body && "dept_name" in body
              && (exists i :: 0 <= i < |DeptListEnum| && collate(DeptListEnum[i]) == collate(body["dept_name"]))
              && ("min_salary" in body ==> ToNumber(body["min_salary"]).Some?)
              && ("max_salary" in body ==> ToNumber(body["max_salary"]).Some?)
    ensures r.Some? ==>
              && r.value.roleName == body["role_name"]
              && r.value.deptName in DeptListEnum && collate(r.value.deptName) == collate(body["dept_name"])
              && r.value.minSalary == (if "min_salary" in body then ToNumber(body["min_salary"]) else None)
              && r.value.maxSalary == (if "max_salary" in body then ToNumber(body["max_salary"]) else None)
  {
    var minSalary := SalaryColumn(body, "min_salary", None);
    var maxSalary := SalaryColumn(body, "max_salary", None);
    if "role_name" !in body || "dept_name" !in body then None
    else
      var deptName := EnumValue(DeptListEnum, body["dept_name"], collate);
      if deptName.None? || minSalary.None? || maxSalary.None? then None
      else Some(Role(body["role_name"], deptName.value, minSalary.value, maxSalary.value))
  }

  /** The row after `role.update(req.body)`: every column the body names takes
      the submitted value, the others keep theirs; `None` when the statement
      fails for the same reasons as an insert. */
  function UpdatedRole(r: Role, body: Fields, collate: string -> string): Option<Role>
  {
    var minSalary := SalaryColumn(body, "min_salary", r.minSalary);
    var maxSalary := SalaryColumn(body, "max_salary", r.maxSalary);
    var deptName :=
      if "dept_name" in body then EnumValue(DeptListEnum, body["dept_name"], collate)
      else if r.deptName in DeptListEnum then Some(r.deptName)
      else None;
    if deptName.None? || minSalary.None? || maxSalary.None? then None
    else Some(Role(GetOr(body, "role_name", r.roleName), deptName.value, minSalary.value, maxSalary.value))
  }

  /** The JSON object a role row is sent as, numbers written as their text. */
  function RoleFields(r: Role): (body: Fields)
    ensures "role_name" in body && "dept_name" in body
  {
    var named := map["role_name" := r.roleName, "dept_name" := r.deptName];
    var withMin := if r.minSalary.Some? then named["min_salary" := IntText(r.minSalary.value)] else named;
    if r.maxSalary.Some? then withMin["max_salary" := IntText(r.maxSalary.value)] else withMin
  }

  lemma RoleFieldsLookup(r: Role)
    ensures var body := RoleFields(r);
            && body["role_name"] == r.roleName && body["dept_name"] == r.deptName
            && ("min_salary" in body <==> r.minSalary.Some?)
            && ("max_salary" in body <==> r.maxSalary.Some?)
            && (r.minSalary.Some? ==> body["min_salary"] == IntText(r.minSalary.value))
            && (r.maxSalary.Some? ==> body["max_salary"] == IntText(r.maxSalary.value))
  {
    RoleKeysDistinct();
  }

  /** A stored role (its department one of the enum values) posted back as
      it is listed creates an equal row. */
  lemma CreateFromListedRole(r: Role, collate: string -> string)
    requires r.deptName in DeptListEnum && MembersDistinct(DeptListEnum, collate)
    ensures NewRole(RoleFields(r), collate) == Some(r)
  {
    RoleFieldsLookup(r);
    EnumValueOfMember(DeptListEnum, r.deptName, collate);
    if r.minSalary.Some? { IntTextRoundTrip(r.minSalary.value); }
    if r.maxSalary.Some? { IntTextRoundTrip(r.maxSalary.value); }
  }

  /** Putting a stored role back as it is listed changes nothing. */
  lemma UpdateWithListedRoleKeepsIt(r: Role, collate: string -> string)
    requires r.deptName in DeptListEnum && MembersDistinct(DeptListEnum, collate)
    ensures UpdatedRole(r, RoleFields(r), collate) == Some(r)
  {
    RoleFieldsLookup(r);
    EnumValueOfMember(DeptListEnum, r.deptName, collate);
    if r.minSalary.Some? { IntTextRoundTrip(r.minSalary.value); }
    if r.maxSalary.Some? { IntTextRoundTrip(r.maxSalary.value); }
  }

  /** A department sent in another case, under a collation that equates
      it with a member, creates the role with the member as declared. */
  lemma CaseVariantStoresMember(collate: string -> string)
    requires MembersDistinct(DeptListEnum, collate) && collate("it") == collate("IT")
    ensures NewRole(map["role_name" := "Dev", "dept_name" := "it"], collate) == Some(Role("Dev", "IT", None, None))
  {
    RoleKeysDistinct();
    EnumValueOfMember(DeptListEnum, "IT", collate);
    EnumValueFollowsCollation(DeptListEnum, "it", "IT", collate);
  }

  /** Each column follows the body when the body names it and is kept otherwise. */
  lemma UpdateFollowsBody(r: Role, body: Fields, collate: string -> string)
    requires UpdatedRole(r, body, collate).Some?
    ensures var u := UpdatedRole(r, body, collate).value;
            && u.roleName == (if "role_name" in body then body["role_name"] else r.roleName)
            && ("dept_name" in body ==> collate(u.deptName) == collate(body["dept_name"]))
            && ("dept_name" !in body ==> u.deptName == r.deptName)
            && u.minSalary == (if "min_salary" in body then ToNumber(body["min_salary"]) else r.minSalary)
            && u.maxSalary == (if "max_salary" in body then ToNumber(body["max_salary"]) else r.maxSalary)
            && u.deptName in DeptListEnum
  {
  }

  /** Sending the same update twice leaves the row as the first one did. */
  lemma UpdateRoleIsIdempotent(r: Role, body: Fields, collate: string -> string)
    requires UpdatedRole(r, body, collate).Some?
    ensures UpdatedRole(UpdatedRole(r, body, collate).value, body, collate) == UpdatedRole(r, body, collate)
  {
    UpdateFollowsBody(r, body, collate);
  }

  /** The columns of a role, as named in the request body and the reply. */
  const RoleColumns: set<string> := {"role_name", "dept_name", "min_salary", "max_salary"}

  /** The instance `role.update(req.body)` leaves behind, which the handler
      sends: each column the body names holds the value as sent (Sequelize
      sets the attributes and does not read the row back after the UPDATE),
      the others hold what was read; a NULL salary is left out. */
  function RoleReply(r: Role, body: Fields): (reply: Fields)
    ensures forall k :: k in reply <==> k in RoleColumns && (k in body || k in RoleFields(r))
    ensures forall k :: k in reply && k in body ==> reply[k] == body[k]
    ensures forall k :: k in reply && k !in body ==> reply[k] == RoleFields(r)[k]
  {
    var read := RoleFields(r);
    map k | k in RoleColumns && (k in body || k in read) :: if k in body then body[k] else read[k]
  }

  /** The reply agrees with the stored row column by column, the department
      only up to the collation: the ENUM stores its member, the reply
      echoes the text sent. */
  lemma {:induction false} ReplyAgreesWithStored(r: Role, body: Fields, collate: string -> string)
    requires UpdatedRole(r, body, collate).Some?
    ensures var u, reply := UpdatedRole(r, body, collate).value, RoleReply(r, body);
            && "role_name" in reply && reply["role_name"] == u.roleName
            && "dept_name" in reply && collate(reply["dept_name"]) == collate(u.deptName)
            && ("min_salary" in reply <==> "min_salary" in body || u.minSalary.Some?)
            && ("min_salary" in reply ==> ToNumber(reply["min_salary"]) == u.minSalary)
            && ("max_salary" in reply <==> "max_salary" in body || u.maxSalary.Some?)
            && ("max_salary" in reply ==> ToNumber(reply["max_salary"]) == u.maxSalary)
  {
    RoleFieldsLookup(r);
    UpdateFollowsBody(r, body, collate);
    if r.minSalary.Some? { IntTextRoundTrip(r.minSalary.value); }
    if r.maxSalary.Some? { IntTextRoundTrip(r.maxSalary.value); }
  }

  /** A department sent in another case is stored as the member but
      answered as sent. */
  lemma CaseVariantIsAnsweredAsSent(collate: string -> string)
    requires MembersDistinct(DeptListEnum, collate) && collate("it") == collate("IT")
    ensures var r, body := Role("Dev", "Finance", None, None), map["dept_name" := "it"];
            && UpdatedRole(r, body, collate) == Some(Role("Dev", "IT", None, None))
            && RoleReply(r, body) == map["role_name" := "Dev", "dept_name" := "it"]
  {
    var r, body := Role("Dev", "Finance", None, None), map["dept_name" := "it"];
    RoleKeysDistinct();
    RoleFieldsLookup(r);
    EnumValueOfMember(DeptListEnum, "IT", collate);
    EnumValueFollowsCollation(DeptListEnum, "it", "IT", collate);
    var reply := RoleReply(r, body);
    assert reply.Keys == {"role_name", "dept_name"};
  }

  /** getAllRoles: every row, in key order. */
  method GetAllRoles(db: Db) returns (status: int, ids: seq<int>, rows: seq<Role>)
    ensures status == OK
    ensures forall id :: id in ids <==> id in db.roles
    ensures Increasing(ids) && |ids| == |db.roles|
    ensures |rows| == |ids| && forall i :: 0 <= i < |ids| ==> ids[i] in db.roles && rows[i] == db.roles[ids[i]]
  {
    ids := SortedKeys(db.roles.Keys);
    rows := Rows(ids, db.roles);
    status := OK;
  }

  /** getRoleById. */
  method GetRoleById(db: Db, id: int) returns (status: int, role: Option<Role>)
    ensures status == NOT_FOUND <==> id !in db.roles
    ensures status == OK <==> id in db.roles
    ensures status == OK ==> role == Some(db.roles[id])
    ensures status != OK ==> role.None?
  {
    if id !in db.roles {
      return NOT_FOUND, None;
    }
    return OK, Some(db.roles[id]);
  }

  /** createRole: 201 with the new row, 400 when the insert fails. */
  method CreateRole(db: Db, body: Fields) returns (status: int, created: Option<int>)
    requires db.Valid()
    modifies db`roles, db`nextRoleId
    ensures db.Valid()
    ensures status == CREATED <==> NewRole(body, db.collate).Some?
    ensures status == CREATED || status == BAD_REQUEST
    ensures status == CREATED ==>
              && created == Some(old(db.nextRoleId)) && old(db.nextRoleId) !in old(db.roles)
              && db.roles == old(db.roles)[old(db.nextRoleId) := NewRole(body, db.collate).value]
    ensures status != CREATED ==> db.roles == old(db.roles) && db.nextRoleId == old(db.nextRoleId) && created.None?
  {
    var row := NewRole(body, db.collate);
    if row.None? {
      return BAD_REQUEST, None;
    }
    var id := db.nextRoleId;
    KeysBelowAfterInsert(db.roles, id, row.value);
    db.roles := db.roles[id := row.value];
    db.nextRoleId := id + 1;
    return CREATED, Some(id);
  }

  /** updateRole: 404, 400 when the statement fails, otherwise 200 with
      the instance as set, while the row takes the stored values. */
  method UpdateRole(db: Db, id: int, body: Fields) returns (status: int, reply: Option<Fields>)
    requires db.Valid()
    modifies db`roles
    ensures db.Valid()
    ensures status == NOT_FOUND <==> id !in old(db.roles)
    ensures status == BAD_REQUEST <==> id in old(db.roles) && UpdatedRole(old(db.roles)[id], body, db.collate).None?
    ensures status == OK || status == NOT_FOUND || status == BAD_REQUEST
    ensures status == OK ==>
              && reply == Some(RoleReply(old(db.roles)[id], body))
              && db.roles == old(db.roles)[id := UpdatedRole(old(db.roles)[id], body, db.collate).value]
    ensures status != OK ==> db.roles == old(db.roles) && reply.None?
  {
    if id !in db.roles {
      return NOT_FOUND, None;
    }
    var updated := UpdatedRole(db.roles[id], body, db.collate);
    if updated.None? {
      return BAD_REQUEST, None;
    }
    reply := Some(RoleReply(db.roles[id], body));
    db.roles := db.roles[id := updated.value];
    status := OK;
  }

  /** Some employee holds the role. */
  predicate HasEmployees(employees: map<int, Employee>, roleId: int)
  {
    exists k :: k in employees && employees[k].roleId == roleId
  }

  /** deleteRole: 404, or 200 once the row is gone. The foreign key
      `employees.roleId`, declared NOT NULL with `belongsTo`, takes ON
      DELETE NO ACTION: deleting a role an employee holds fails, and the
      catch answers 500. */
  method DeleteRole(db: Db, id: int) returns (status: int)
    requires db.Valid()
    modifies db`roles
    ensures db.Valid()
    ensures status == NOT_FOUND <==> id !in old(db.roles)
    ensures status == SERVER_ERROR <==> id in old(db.roles) && HasEmployees(db.employees, id)
    ensures status == OK <==> id in old(db.roles) && !HasEmployees(db.employees, id)
    ensures status == OK ==> db.roles == old(db.roles) - {id}
    ensures status != OK ==> db.roles == old(db.roles)
    ensures RoleRefsIntact(db.employees, old(db.roles)) ==> RoleRefsIntact(db.employees, db.roles)
  {
    if id !in db.roles {
      return NOT_FOUND;
    }
    if HasEmployees(db.employees, id) {
      return SERVER_ERROR;
    }
    db.roles := db.roles - {id};
    status := OK;
  }
}
