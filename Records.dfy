/** The rows of the tables the controllers read and write, with the columns
    declared in the model files, and the enumerations of enums.js. Dates are
    integer timestamps; DECIMAL amounts are whole numbers; columns that the
    controllers only pass through keep the submitted text. */
module Records {
  import opened Common

  /** The value sets of enums.js. The status column has no 'cancelled'. */
  const RoleEnum: seq<string> := ["admin", "customer"]
  const StatusEnum: seq<string> := ["pending", "denied", "accepted"]
  const DeptListEnum: seq<string> := ["Event management", "Event operation", "Marketing", "IT", "Finance"]
  const EventTypeEnum: seq<string> := ["Conference", "Workshop", "Seminar", "Concert", "Festival"]

  /** The member an ENUM column stores for `v`: MySQL matches the text
      against the members under the column's collation and stores the
      member as declared; `None` when no member matches and the statement
      fails. The first member in declaration order is taken. */
  function EnumValue(members: seq<string>, v: string, collate: string -> string): (r: Option<string>)
    ensures r.Some? <==> exists i :: 0 <= i < |members| && collate(members[i]) == collate(v)
    ensures r.Some? ==> r.value in members && collate(r.value) == collate(v)
  {
    if members == [] then None
    else if collate(members[0]) == collate(v) then Some(members[0])
    else
      var r := EnumValue(members[1..], v, collate);
      assert forall i :: 1 <= i < |members| ==> members[i] == members[1..][i - 1];
      r
  }

  /** No two members of an ENUM are equal under the collation (MySQL
      refuses such a column definition). */
  predicate MembersDistinct(members: seq<string>, collate: string -> string)
  {
    forall i, j :: 0 <= i < j < |members| ==> collate(members[i]) != collate(members[j])
  }

  /** With distinct members, a member is stored as itself. */
  lemma {:induction false} EnumValueOfMember(members: seq<string>, m: string, collate: string -> string)
    requires MembersDistinct(members, collate) && m in members
    ensures EnumValue(members, m, collate) == Some(m)
  {
    if members[0] != m {
      var k :| 0 <= k < |members| && members[k] == m;
      assert collate(members[0]) != collate(m);
      assert members[1..][k - 1] == m;
      assert MembersDistinct(members[1..], collate) by {
        forall i, j | 0 <= i < j < |members| - 1
          ensures collate(members[1..][i]) != collate(members[1..][j])
        {
          assert members[1..][i] == members[i + 1] && members[1..][j] == members[j + 1];
        }
      }
      EnumValueOfMember(members[1..], m, collate);
    }
  }

  /** Texts equal under the collation store the same member. */
  lemma {:induction false} EnumValueFollowsCollation(members: seq<string>, v: string, w: string, collate: string -> string)
    requires collate(v) == collate(w)
    ensures EnumValue(members, v, collate) == EnumValue(members, w, collate)
  {
    if members != [] {
      EnumValueFollowsCollation(members[1..], v, w, collate);
    }
  }

  /** A row of `events`; `endDate` is the `end_date` column. */
  datatype Event = Event(
    name: string,
    startDate: int,
    endDate: Option<int>,
    desc: Option<string>,
    budget: Option<int>,
    status: string,
    eventTypeId: int,
    venueId: int,
    custId: int)

  /** A row of `event_types`. */
  datatype EventType = EventType(name: string)

  /** A row of `customers`. */
  datatype Customer = Customer(
    firstName: string,
    lastName: string,
    organizationName: Option<string>,
    phoneNumber: Option<string>,
    userId: int)

  /** A row of `employees`; `dob` is the `DOB` column, kept as its text. */
  datatype Employee = Employee(
    firstName: string,
    lastName: string,
    dob: Option<string>,
    gender: Option<string>,
    email: string,
    phone: string,
    roleId: int,
    salary: int)

  /** A row of `roles`; the DECIMAL salary bounds as whole numbers. */
  datatype Role = Role(
    roleName: string,
    deptName: string,
    minSalary: Option<int>,
    maxSalary: Option<int>)

  /** A row of `venues`; `maxOccupancy` is the `max_occupancy` column. */
  datatype Venue = Venue(
    name: string,
    location: string,
    maxOccupancy: int,
    email: Option<string>,
    phone: string)

  /** A row of `users`; `password` holds what the create hook stored. */
  datatype User = User(username: string, email: string, password: string, role: string)
}
