/** customerController.js: the paged customer list, the field-by-field
    partial update and the delete that refuses while events refer to the
    customer. */
module CustomerController {
  import opened Common
  import opened JsText
  import opened Tables
  import opened Records
  import opened Database

  /* ---------------------------------------------------------------- list */

  /** `Math.ceil(count / limit)` for a positive limit. */
  function CeilDiv(count: nat, limit: nat): (pages: nat)
    requires limit > 0
    ensures pages * limit >= count
    ensures pages == 0 || (pages - 1) * limit < count
  {
    var q := (count + limit - 1) / limit;
    var r := (count + limit - 1) % limit;
    assert count + limit - 1 == q * limit + r;
    q
  }

  /** The response body of getCustomers; `totalPages` is `None` where the
      division gives NaN or Infinity, which JSON renders as null. */
  datatype CustomerPage = CustomerPage(totalItems: nat, totalPages: Option<nat>, currentPage: int, ids: seq<int>, data: seq<Customer>)

  /** The customer ids the WHERE clause keeps, in key order. */
  function MatchingCustomers(customers: map<int, Customer>, custId: Option<string>): (ids: seq<int>)
    ensures forall id :: id in ids <==> id in customers && (custId.None? || ParseInt(custId.value) == Some(id))
  {
    Select(customers, (id, c) => custId.None? || ParseInt(custId.value) == Some(id))
  }

  /** `(page - 1) * limit`: where the requested page starts. */
  function PageOffset(page: int, limit: int): int
  {
    (page - 1) * limit
  }

  /** `Math.ceil(count / limit)`, where `limit` is `None` for NaN. */
  function TotalPages(count: nat, limit: Option<int>): Option<nat>
  {
    match limit
    case Some(n) => if n > 0 then Some(CeilDiv(count, n)) else None
    case None => None
  }

  /** The page number, limit and offset getCustomers reads from the query. */
  datatype PageRequest = PageRequest(page: int, limit: nat, offset: nat)

  /** `parseInt(page)` and `parseInt(limit)` with their defaults 1 and 10,
      and the offset `(page - 1) * limit`; `None` when the query must fail
      because a value is not a number or the limit or offset is negative. */
  function ReadPageRequest(query: Fields): Option<PageRequest>
  {
    var page := IntParam(query, "page", 1);
    var limit := IntParam(query, "limit", 10);
    if page.None? || limit.None? || limit.value < 0 || PageOffset(page.value, limit.value) < 0 then None
    else Some(PageRequest(page.value, limit.value, PageOffset(page.value, limit.value)))
  }

  /** Without `page` and `limit` the first ten customers are asked for. */
  lemma DefaultPageRequest(query: Fields)
    requires "page" !in query && "limit" !in query
    ensures ReadPageRequest(query) == Some(PageRequest(1, 10, 0))
  {
  }

  /** The request read from a page number and a non-negative limit: from
      page 1 on it starts after the pages before it; below page 1 a
      positive limit makes the offset negative and the query fails. */
  lemma PageRequestOfValues(query: Fields, page: int, limit: int)
    requires IntParam(query, "page", 1) == Some(page)
    requires IntParam(query, "limit", 10) == Some(limit) && limit >= 0
    ensures page >= 1 ==>
              && ReadPageRequest(query).Some? && ReadPageRequest(query).value.page == page
              && ReadPageRequest(query).value.limit == limit && ReadPageRequest(query).value.offset == (page - 1) * limit
    ensures page < 1 && limit > 0 ==> ReadPageRequest(query).None?
  {
    var offset := PageOffset(page, limit);
    if page >= 1 {
      MulMonotone(0, page - 1, limit);
      assert offset >= 0;
      assert ReadPageRequest(query) == Some(PageRequest(page, limit, offset));
    } else if limit > 0 {
      MulNegative(page - 1, limit);
      assert offset < 0;
    }
  }

  /** A page from 1 on, sent as the client renders it, is read back as
      asked with the offset that skips the pages before it. */
  lemma PageRequestOfPage(query: Fields, page: nat, limit: nat)
    requires page >= 1
    requires "page" in query && query["page"] == NatText(page)
    requires "limit" in query && query["limit"] == NatText(limit)
    ensures && ReadPageRequest(query).Some? && ReadPageRequest(query).value.page == page
            && ReadPageRequest(query).value.limit == limit && ReadPageRequest(query).value.offset == (page - 1) * limit
  {
    NatTextRoundTrip(page);
    NatTextRoundTrip(limit);
    PageRequestOfValues(query, page, limit);
  }

  /** getCustomers: the matching customers, counted, and the page of
      them the request asks for. */
  method GetCustomers(db: Db, query: Fields) returns (status: int, result: CustomerPage)
    ensures status == OK || status == SERVER_ERROR
    ensures status == OK <==> ReadPageRequest(query).Some?
    ensures status == OK ==>
              var request := ReadPageRequest(query).value;
              var matching := MatchingCustomers(db.customers, Filter(query, "custId"));
              && result.totalItems == |matching|
              && result.currentPage == request.page
              && result.totalPages == TotalPages(|matching|, NumParam(query, "limit", 10))
              && result.ids == Page(matching, request.offset, request.limit)
              && result.data == Rows(result.ids, db.customers)
  {
    result := CustomerPage(0, None, 0, [], []);
    var request := ReadPageRequest(query);
    if request.None? {
      return SERVER_ERROR, result;
    }
    var matching := MatchingCustomers(db.customers, Filter(query, "custId"));
    var ids := Page(matching, request.value.offset, request.value.limit);
    PageIdsAreKeys(matching, db.customers, request.value.offset, request.value.limit);
    result := CustomerPage(|matching|, TotalPages(|matching|, NumParam(query, "limit", 10)),
                           request.value.page, ids, Rows(ids, db.customers));
    status := OK;
  }

  /** Filtering by id leaves at most that one customer. */
  lemma CustIdFilterSelectsThatCustomer(customers: map<int, Customer>, custId: string)
    ensures var ids := MatchingCustomers(customers, Some(custId));
            && |ids| <= 1
            && (forall id :: id in ids ==> ParseInt(custId) == Some(id))
            && (ParseInt(custId).Some? && ParseInt(custId).value in customers ==> ids == [ParseInt(custId).value])
  {
    var ids := MatchingCustomers(customers, Some(custId));
    OnlyKey(ids, customers, ParseInt(custId));
  }

  /** Every item of the list lies on exactly one page within `totalPages`:
      item `i` is row `i - offset` of the page `i / limit + 1`. */
  lemma {:induction false} ItemLiesOnItsPage(matching: seq<int>, i: nat, limit: nat)
    requires i < |matching| && limit > 0
    ensures var page := i / limit + 1;
            var offset := (page - 1) * limit;
            && 1 <= page <= CeilDiv(|matching|, limit)
            && offset <= i < offset + limit
            && Page(matching, offset, limit)[i - offset] == matching[i]
  {
    var page := i / limit + 1;
    var offset := (page - 1) * limit;
    assert offset == (i / limit) * limit;
    assert i == (i / limit) * limit + i % limit;
    var total := CeilDiv(|matching|, limit);
    if page > total {
      assert total * limit <= (page - 1) * limit by {
        MulMonotone(total, page - 1, limit);
      }
      assert false;
    }
  }

  lemma MulMonotone(a: nat, b: nat, c: nat)
    requires a <= b
    ensures a * c <= b * c
  {
  }

  lemma MulNegative(a: int, b: int)
    requires a < 0 && b > 0
    ensures a * b < 0
  {
  }

  /* -------------------------------------------------------------- update */

  /** The `updates` object updateCustomer builds; `None` leaves a column alone. */
  datatype CustomerUpdates = CustomerUpdates(
    firstName: Option<string>,
    lastName: Option<string>,
    organizationName: Option<string>,
    phoneNumber: Option<string>,
    userId: Option<int>)

  /** The updates of a request body: each text field that is supplied and
      non-empty, and `userId` when `parseInt` reads a number from it. */
  function UpdatesOf(body: Fields): CustomerUpdates
  {
    CustomerUpdates(
      Filter(body, "firstName"), Filter(body, "lastName"),
      Filter(body, "organizationName"), Filter(body, "phoneNumber"),
      if "userId" in body then ParseInt(body["userId"]) else None)
  }

  /** `customer.update(updates)`. */
  function Patched(c: Customer, u: CustomerUpdates): Customer
  {
    Customer(
      if u.firstName.Some? then u.firstName.value else c.firstName,
      if u.lastName.Some? then u.lastName.value else c.lastName,
      if u.organizationName.Some? then u.organizationName else c.organizationName,
      if u.phoneNumber.Some? then u.phoneNumber else c.phoneNumber,
      if u.userId.Some? then u.userId.value else c.userId)
  }

  /** The updates object, one guarded assignment per field. */
  method BuildUpdates(body: Fields) returns (updates: CustomerUpdates)
    ensures updates == UpdatesOf(body)
  {
    var firstName, lastName, organizationName, phoneNumber := None, None, None, None;
    var userId := None;
    if "firstName" in body && body["firstName"] != "" { firstName := Some(body["firstName"]); }
    if "lastName" in body && body["lastName"] != "" { lastName := Some(body["lastName"]); }
    if "organizationName" in body && body["organizationName"] != "" {
      organizationName := Some(body["organizationName"]);
    }
    if "phoneNumber" in body && body["phoneNumber"] != "" { phoneNumber := Some(body["phoneNumber"]); }
    if "userId" in body && ParseInt(body["userId"]).Some? { userId := ParseInt(body["userId"]); }
    updates := CustomerUpdates(firstName, lastName, organizationName, phoneNumber, userId);
  }

  /** A text column takes the body's value exactly when it is supplied and
      non-empty; `userId` changes exactly when it parses; nothing else changes. */
  lemma PatchFollowsBody(c: Customer, body: Fields)
    ensures var r := Patched(c, UpdatesOf(body));
            && (if Truthy(body, "firstName") then r.firstName == body["firstName"] else r.firstName == c.firstName)
            && (if Truthy(body, "lastName") then r.lastName == body["lastName"] else r.lastName == c.lastName)
            && (if Truthy(body, "organizationName") then r.organizationName == Some(body["organizationName"])
                else r.organizationName == c.organizationName)
            && (if Truthy(body, "phoneNumber") then r.phoneNumber == Some(body["phoneNumber"])
                else r.phoneNumber == c.phoneNumber)
            && (if "userId" in body && ParseInt(body["userId"]).Some? then r.userId == ParseInt(body["userId"]).value
                else r.userId == c.userId)
  {
  }

  /** Applying the same body twice is applying it once. */
  lemma PatchIsIdempotent(c: Customer, body: Fields)
    ensures Patched(Patched(c, UpdatesOf(body)), UpdatesOf(body)) == Patched(c, UpdatesOf(body))
  {
  }

  /** A body whose fields are all absent or empty changes nothing. */
  lemma EmptyBodyChangesNothing(c: Customer, body: Fields)
    requires !Truthy(body, "firstName") && !Truthy(body, "lastName")
    requires !Truthy(body, "organizationName") && !Truthy(body, "phoneNumber")
    requires "userId" !in body || ParseInt(body["userId"]).None?
    ensures Patched(c, UpdatesOf(body)) == c
  {
  }

  /** A changed `userId` names a stored user: Sequelize writes only the
      changed columns, and MySQL checks the foreign key `customers.userId`
      when the column changes. */
  predicate UserKeyStored(before: Customer, after: Customer, users: map<int, User>)
  {
    after.userId != before.userId ==> after.userId in users
  }

  /** A write the foreign key accepts keeps every customer's user stored. */
  lemma PatchKeepsUserRefs(customers: map<int, Customer>, id: int, row: Customer, users: map<int, User>)
    requires id in customers && UserKeyStored(customers[id], row, users)
    ensures UserRefsIntact(customers, users) ==> UserRefsIntact(customers[id := row], users)
  {
  }

  /** updateCustomer: 404, 500 when the new `userId` names no user or the
      database refuses the row otherwise (`writeOk`), and 200 with the
      patched row. */
  method UpdateCustomer(db: Db, id: int, body: Fields, writeOk: bool) returns (status: int, updated: Option<Customer>)
    modifies db`customers
    ensures status == NOT_FOUND <==> id !in old(db.customers)
    ensures status == OK <==>
              && id in old(db.customers)
              && UserKeyStored(old(db.customers)[id], Patched(old(db.customers)[id], UpdatesOf(body)), db.users)
              && writeOk
    ensures status == OK || status == NOT_FOUND || status == SERVER_ERROR
    ensures status == OK ==>
              && updated == Some(Patched(old(db.customers)[id], UpdatesOf(body)))
              && db.customers == old(db.customers)[id := updated.value]
    ensures status != OK ==> db.customers == old(db.customers) && updated.None?
    ensures UserRefsIntact(old(db.customers), db.users) ==> UserRefsIntact(db.customers, db.users)
  {
    updated := None;
    if id !in db.customers {
      return NOT_FOUND, updated;
    }
    var updates := BuildUpdates(body);
    var row := Patched(db.customers[id], updates);
    if !UserKeyStored(db.customers[id], row, db.users) || !writeOk {
      return SERVER_ERROR, updated;
    }
    PatchKeepsUserRefs(db.customers, id, row, db.users);
    db.customers := db.customers[id := row];
    updated := Some(db.customers[id]);
    status := OK;
  }

  /* -------------------------------------------------------------- delete */

  /** Some event names the customer. */
  predicate HasEvents(events: map<int, Event>, custId: int)
  {
    exists e :: e in events && events[e].custId == custId
  }

  /** deleteCustomer: refused with 400 while any event refers to
      the customer. */
  method DeleteCustomer(db: Db, id: int) returns (status: int)
    modifies db`customers
    ensures status == NOT_FOUND <==> id !in old(db.customers)
    ensures status == BAD_REQUEST <==> id in old(db.customers) && HasEvents(db.events, id)
    ensures status == OK <==> id in old(db.customers) && !HasEvents(db.events, id)
    ensures status == OK ==> db.customers == old(db.customers) - {id}
    ensures status != OK ==> db.customers == old(db.customers)
    ensures CustomerRefsIntact(db.events, old(db.customers)) ==> CustomerRefsIntact(db.events, db.customers)
  {
    if id !in db.customers {
      return NOT_FOUND;
    }
    if HasEvents(db.events, id) {
      return BAD_REQUEST;
    }
    db.customers := db.customers - {id};
    status := OK;
  }
}
