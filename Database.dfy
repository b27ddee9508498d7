/** The relational store behind the controllers: one map from primary key to
    row per table, and the auto-increment counter of each table that a handler
    inserts into. `Valid` holds the unique constraints the model files declare.

    Text is compared under the columns' collation, both in a WHERE clause and
    in a unique index. MySQL's default collations match case-insensitively;
    the collation is the deployed database's, so it is a parameter: a key
    function `collate`, under which two texts are equal exactly when their
    keys are. The identity is exact comparison. */
module Database {
  import opened Records

  /** `users.email` is declared unique. */
  predicate UniqueUserEmails(users: map<int, User>, collate: string -> string)
  {
    forall a, b :: a in users && b in users && collate(users[a].email) == collate(users[b].email) ==> a == b
  }

  /** `users.username` is declared unique. */
  predicate UniqueUsernames(users: map<int, User>, collate: string -> string)
  {
    forall a, b :: a in users && b in users && collate(users[a].username) == collate(users[b].username) ==> a == b
  }

  /** `employees.email` and `employees.phone` are declared unique. */
  predicate UniqueEmployeeContacts(employees: map<int, Employee>, collate: string -> string)
  {
    && (forall a, b :: a in employees && b in employees && collate(employees[a].email) == collate(employees[b].email) ==> a == b)
    && (forall a, b :: a in employees && b in employees && collate(employees[a].phone) == collate(employees[b].phone) ==> a == b)
  }

  /** `venues.email` is declared unique; rows without an e-mail (NULL) never
      clash. */
  predicate UniqueVenueEmails(venues: map<int, Venue>, collate: string -> string)
  {
    forall a, b ::
      (a in venues && b in venues && venues[a].email.Some? && venues[b].email.Some?
       && collate(venues[a].email.value) == collate(venues[b].email.value)) ==> a == b
  }

  /** Sequelize finds an association for every alias a query includes;
      otherwise it rejects the query before it reaches the database. */
  predicate IncludesResolve(includes: seq<string>, associations: set<string>)
  {
    forall i :: 0 <= i < |includes| ==> includes[i] in associations
  }

  /** Every event names an existing customer. */
  predicate CustomerRefsIntact(events: map<int, Event>, customers: map<int, Customer>)
  {
    forall id :: id in events ==> events[id].custId in customers
  }

  /** Every event names an existing venue. */
  predicate VenueRefsIntact(events: map<int, Event>, venues: map<int, Venue>)
  {
    forall id :: id in events ==> events[id].venueId in venues
  }

  /** Every event names an existing event type. */
  predicate EventTypeRefsIntact(events: map<int, Event>, types: map<int, EventType>)
  {
    forall id :: id in events ==> events[id].eventTypeId in types
  }

  /** Every customer names an existing user. */
  predicate UserRefsIntact(customers: map<int, Customer>, users: map<int, User>)
  {
    forall id :: id in customers ==> customers[id].userId in users
  }

  /** Every employee names an existing role. */
  predicate RoleRefsIntact(employees: map<int, Employee>, roles: map<int, Role>)
  {
    forall id :: id in employees ==> employees[id].roleId in roles
  }

  /** Auto-increment keys start at 1 and stay below the table's counter. */
  predicate KeysBelow<T>(table: map<int, T>, next: int)
  {
    forall id :: id in table ==> 0 < id < next
  }

  /** Inserting at the counter and advancing it keeps every key below it. */
  lemma KeysBelowAfterInsert<T>(table: map<int, T>, next: int, row: T)
    requires KeysBelow(table, next) && next >= 1
    ensures next !in table
    ensures KeysBelow(table[next := row], next + 1)
  {
  }

  class Db {
    var events: map<int, Event>
    var eventTypes: map<int, EventType>
    var customers: map<int, Customer>
    var employees: map<int, Employee>
    var roles: map<int, Role>
    var venues: map<int, Venue>
    var users: map<int, User>
    var nextEmployeeId: int
    var nextRoleId: int
    var nextVenueId: int
    var nextUserId: int
    /** The collation of the text columns. */
    const collate: string -> string

    ghost predicate Valid()
      reads this
    {
      && nextEmployeeId >= 1 && nextRoleId >= 1 && nextVenueId >= 1 && nextUserId >= 1
      && KeysBelow(employees, nextEmployeeId)
      && KeysBelow(roles, nextRoleId)
      && KeysBelow(venues, nextVenueId)
      && KeysBelow(users, nextUserId)
      && UniqueUserEmails(users, collate)
      && UniqueUsernames(users, collate)
      && UniqueEmployeeContacts(employees, collate)
      && UniqueVenueEmails(venues, collate)
    }

    /** An empty database under the given collation. */
    constructor (collate: string -> string)
      ensures Valid() && this.collate == collate
      ensures events == map[] && eventTypes == map[] && customers == map[]
      ensures employees == map[] && roles == map[] && venues == map[] && users == map[]
    {
      events, eventTypes, customers := map[], map[], map[];
      employees, roles, venues, users := map[], map[], map[], map[];
      nextEmployeeId, nextRoleId, nextVenueId, nextUserId := 1, 1, 1, 1;
      this.collate := collate;
    }
  }
}
