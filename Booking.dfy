/** bookingController.js: the event list (equality filters, validated status
    and event-type values, a sort spec with fallbacks, LIMIT/OFFSET), the
    partial update (strip empty values, validate, coerce numbers, write) and
    the delete. */
module BookingController {
  import opened Common
  import opened JsText
  import opened Tables
  import opened Records
  import opened Database

  const ValidStatuses: seq<string> := ["pending", "denied", "accepted", "cancelled"]
  const ValidEventTypes: seq<string> := ["Conference", "Workshop", "Seminar", "Concert", "Festival"]
  const ValidSortFields: seq<string> := ["EventId", "name", "budget"]
  const ValidSortOrders: seq<string> := ["ASC", "DESC"]

  /* ---------------------------------------------------------------- list */

  /** One ORDER BY term: a column and a direction. */
  datatype Order = Order(column: string, direction: string)

  /** The order getEvents asks for: the requested column and upper-cased
      direction when both are recognised, ascending when only the column is,
      and ascending start date when the column is not sortable. */
  function SelectOrder(sortBy: string, sortOrder: string): (o: Order)
    ensures o.direction in ValidSortOrders
    ensures o.column in ValidSortFields <==> sortBy in ValidSortFields
    ensures sortBy in ValidSortFields ==> o.column == sortBy
    ensures sortBy !in ValidSortFields ==> o == Order("startDate", "ASC")
    ensures sortBy in ValidSortFields && ToUpper(sortOrder) in ValidSortOrders ==> o.direction == ToUpper(sortOrder)
    ensures ToUpper(sortOrder) !in ValidSortOrders ==> o.direction == "ASC"
  {
    if sortBy in ValidSortFields then
      Order(sortBy, if ToUpper(sortOrder) in ValidSortOrders then ToUpper(sortOrder) else "ASC")
    else
      Order("startDate", "ASC")
  }

  lemma UpperOfSortOrders()
    ensures ToUpper("ASC") == "ASC" && ToUpper("DESC") == "DESC"
  {
    assert ToUpper("C") == "C";
    assert ToUpper("SC") == "SC";
    assert ToUpper("ESC") == "ESC";
  }

  /** Feeding a chosen order back in as the sort spec chooses it again. */
  lemma SelectOrderIsStable(sortBy: string, sortOrder: string)
    ensures var o := SelectOrder(sortBy, sortOrder);
            o.column in ValidSortFields ==> SelectOrder(o.column, o.direction) == o
  {
    UpperOfSortOrders();
  }

  /** The WHERE clause: each filter is the raw query text, `None` when the
      query value was absent or empty. */
  datatype EventFilters = EventFilters(
    eventId: Option<string>,
    custId: Option<string>,
    venueId: Option<string>,
    status: Option<string>)

  /** An integer column compared with query text. */
  predicate KeyMatches(column: int, filter: Option<string>)
  {
    filter.None? || ParseInt(filter.value) == Some(column)
  }

  /** The row is kept by the WHERE clause and, when an event type is asked
      for, by the inner join on `event_types.name`; text is compared under
      the collation. */
  predicate EventMatches(id: int, e: Event, f: EventFilters, eventType: Option<string>, types: map<int, EventType>,
                         collate: string -> string)
  {
    && KeyMatches(id, f.eventId)
    && KeyMatches(e.custId, f.custId)
    && KeyMatches(e.venueId, f.venueId)
    && (f.status.Some? ==> collate(e.status) == collate(f.status.value))
    && (eventType.Some? ==> e.eventTypeId in types && collate(types[e.eventTypeId].name) == collate(eventType.value))
  }

  predicate BadStatus(query: Fields)
  {
    Truthy(query, "status") && query["status"] !in ValidStatuses
  }

  predicate BadEventType(query: Fields)
  {
    Truthy(query, "eventType") && query["eventType"] !in ValidEventTypes
  }

  /** The ids getEvents selects before paging, in key order. */
  function MatchingEvents(events: map<int, Event>, types: map<int, EventType>, f: EventFilters, eventType: Option<string>,
                          collate: string -> string): (ids: seq<int>)
    ensures forall id :: id in ids <==> id in events && EventMatches(id, events[id], f, eventType, types, collate)
  {
    Select(events, (id, e) => EventMatches(id, e, f, eventType, types, collate))
  }

  /** The filters getEvents copies from the query string. */
  function FiltersOf(query: Fields): EventFilters
  {
    EventFilters(Filter(query, "eventId"), Filter(query, "custId"), Filter(query, "venueId"), Filter(query, "status"))
  }

  /** The rows on the page that getEvents returns. */
  function ListedEvents(events: map<int, Event>, types: map<int, EventType>, query: Fields, offset: nat, limit: nat, collate: string -> string): seq<Event>
  {
    var ids := MatchingEvents(events, types, FiltersOf(query), Filter(query, "eventType"), collate);
    PageIdsAreKeys(ids, events, offset, limit);
    Rows(Page(ids, offset, limit), events)
  }

  /** The row satisfies each filter the query sets. */
  predicate MeetsQuery(e: Event, query: Fields, types: map<int, EventType>, collate: string -> string)
  {
    && (Truthy(query, "custId") ==> ParseInt(query["custId"]) == Some(e.custId))
    && (Truthy(query, "venueId") ==> ParseInt(query["venueId"]) == Some(e.venueId))
    && (Truthy(query, "status") ==> collate(e.status) == collate(query["status"]))
    && (Truthy(query, "eventType") ==> e.eventTypeId in types && collate(types[e.eventTypeId].name) == collate(query["eventType"]))
  }

  lemma MatchMeetsQuery(id: int, e: Event, query: Fields, types: map<int, EventType>, collate: string -> string)
    requires EventMatches(id, e, FiltersOf(query), Filter(query, "eventType"), types, collate)
    ensures MeetsQuery(e, query, types, collate)
  {
  }

  /** Every listed row satisfies each filter the query sets, and no more
      rows are listed than the limit allows. */
  lemma ListedEventsMatch(events: map<int, Event>, types: map<int, EventType>, query: Fields, offset: nat, limit: nat, collate: string -> string)
    ensures var rows := ListedEvents(events, types, query, offset, limit, collate);
            && |rows| <= limit
            && forall e :: e in rows ==> MeetsQuery(e, query, types, collate)
  {
    var rows := ListedEvents(events, types, query, offset, limit, collate);
    forall e | e in rows
      ensures MeetsQuery(e, query, types, collate)
    {
      ListedRowMeetsQuery(events, types, query, offset, limit, collate, e);
    }
  }

  lemma ListedRowMeetsQuery(events: map<int, Event>, types: map<int, EventType>, query: Fields, offset: nat, limit: nat, collate: string -> string, e: Event)
    requires e in ListedEvents(events, types, query, offset, limit, collate)
    ensures MeetsQuery(e, query, types, collate)
  {
    var f := FiltersOf(query);
    var eventType := Filter(query, "eventType");
    var ids := MatchingEvents(events, types, f, eventType, collate);
    var id := RowOfPage(ids, events, offset, limit, e);
    assert EventMatches(id, events[id], f, eventType, types, collate);
    MatchMeetsQuery(id, e, query, types, collate);
  }

  /** A listed row with the event id filter set is the row of that id. */
  lemma EventIdFilterSelectsOneRow(events: map<int, Event>, types: map<int, EventType>, query: Fields, offset: nat, limit: nat, collate: string -> string)
    requires Truthy(query, "eventId")
    ensures |ListedEvents(events, types, query, offset, limit, collate)| <= 1
  {
    var f := FiltersOf(query);
    var eventType := Filter(query, "eventType");
    var ids := MatchingEvents(events, types, f, eventType, collate);
    var wanted := ParseInt(query["eventId"]);
    assert f.eventId == Some(query["eventId"]);
    forall id | id in ids
      ensures wanted == Some(id)
    {
      MatchHasWantedId(id, events[id], f, eventType, types, collate);
    }
    AtMostOneKey(ids);
    PageNoLonger(ids, offset, limit);
  }

  /** A row kept under an event id filter has the id the filter reads as. */
  lemma MatchHasWantedId(id: int, e: Event, f: EventFilters, eventType: Option<string>, types: map<int, EventType>,
                         collate: string -> string)
    requires EventMatches(id, e, f, eventType, types, collate) && f.eventId.Some?
    ensures ParseInt(f.eventId.value) == Some(id)
  {
  }

  /** getEvents. Invalid status or event-type values answer 400 before
      any query runs; otherwise the page of matching rows is returned with
      `total` equal to the number of rows in it. */
  method GetEvents(db: Db, query: Fields) returns (status: int, order: Order, total: nat, events: seq<Event>)
    ensures status == OK || status == BAD_REQUEST || status == SERVER_ERROR
    ensures status == BAD_REQUEST <==> BadStatus(query) || BadEventType(query)
    ensures status == SERVER_ERROR <==>
              && !BadStatus(query) && !BadEventType(query)
              && (SqlCount(IntParam(query, "limit", 10)).None? || SqlCount(IntParam(query, "offset", 0)).None?)
    ensures status == OK ==>
              && order == SelectOrder(GetOr(query, "sortBy", "EventId"), GetOr(query, "sortOrder", "ASC"))
              && events == ListedEvents(db.events, db.eventTypes, query,
                                        SqlCount(IntParam(query, "offset", 0)).value, SqlCount(IntParam(query, "limit", 10)).value,
                                        db.collate)
              && total == |events|
  {
    order, total, events := Order("startDate", "ASC"), 0, [];
    if BadStatus(query) || BadEventType(query) {
      return BAD_REQUEST, order, total, events;
    }
    order := SelectOrder(GetOr(query, "sortBy", "EventId"), GetOr(query, "sortOrder", "ASC"));
    var limit := SqlCount(IntParam(query, "limit", 10));
    var offset := SqlCount(IntParam(query, "offset", 0));
    if limit.None? || offset.None? {
      return SERVER_ERROR, order, total, events;
    }
    events := ListedEvents(db.events, db.eventTypes, query, offset.value, limit.value, db.collate);
    total := |events|;
    status := OK;
  }

  /** The names under which models/index.js makes Event's associations
      reachable. None of them declares `as`, so each takes the name
      Sequelize derives from its target model: the singular for
      `belongsTo`, the plural for `hasMany` and `belongsToMany`. */
  const EventAssociations: set<string> :=
    {"EventType", "Venue", "Customer", "Tickets", "SoldTickets", "Caterings", "Employees", "EventPayments"}

  /** The aliases getEvents' query and updateEvent's re-read include. */
  const EventIncludes: seq<string> := ["eventType", "venue", "catering"]

  /** None of the included aliases names an association, so every query
      that includes them fails. */
  lemma EventIncludesDoNotResolve()
    ensures !IncludesResolve(EventIncludes, EventAssociations)
    ensures forall i :: 0 <= i < |EventIncludes| ==> EventIncludes[i] !in EventAssociations
  {
    assert EventIncludes[0] == "eventType";
    assert EventIncludes[0] !in EventAssociations;
  }

  /** getEvents as written: once the status and event type pass, the
      query includes aliases no association declares, so Sequelize rejects
      it and the catch answers 500. The handler never answers 200; the
      query it evidently intends is `GetEvents`. */
  method GetEventsAsWritten(db: Db, query: Fields) returns (status: int, total: nat, events: seq<Event>)
    ensures status == BAD_REQUEST <==> BadStatus(query) || BadEventType(query)
    ensures status == SERVER_ERROR <==> !BadStatus(query) && !BadEventType(query)
    ensures status != OK && total == 0 && events == []
  {
    var order;
    status, order, total, events := GetEvents(db, query);
    EventIncludesDoNotResolve();
    if status == OK && !IncludesResolve(EventIncludes, EventAssociations) {
      status := SERVER_ERROR;
    }
    if status != OK {
      total, events := 0, [];
    }
  }

  /* -------------------------------------------------------------- update */

  /** The body after every key whose value is '' has been deleted. */
  function WithoutEmpty(body: Fields): (u: Fields)
    ensures u.Keys <= body.Keys
    ensures forall k :: k in u ==> u[k] == body[k] && u[k] != ""
    ensures forall k :: k in body && body[k] != "" ==> k in u
  {
    map k | k in body && body[k] != "" :: body[k]
  }

  /** `Object.keys(updates).forEach(key => { if (updates[key] === '') delete updates[key]; })` */
  method StripEmpty(body: Fields) returns (updates: Fields)
    ensures updates == WithoutEmpty(body)
  {
    updates := body;
    var keys := body.Keys;
    while keys != {}
      invariant keys <= body.Keys
      invariant updates.Keys <= body.Keys
      invariant forall k :: k in keys ==> k in updates
      invariant forall k :: k in updates ==> updates[k] == body[k]
      invariant forall k :: k in body && k !in keys ==> (k in updates <==> body[k] != "")
      decreases keys
    {
      var key :| key in keys;
      if updates[key] == "" {
        updates := updates - {key};
      }
      keys := keys - {key};
    }
  }

  /** Why the handler answers 400. */
  datatype Rejection = InvalidStatus | EndNotAfterStart | BudgetNotPositive

  /** `new Date(end) <= new Date(start)`: false as soon as either date is invalid. */
  predicate NotAfter(end: Option<int>, start: Option<int>)
  {
    end.Some? && start.Some? && end.value <= start.value
  }

  /** The three checks of updateEvent, in the handler's order. */
  function CheckUpdate(u: Fields, parseDate: string -> Option<int>): Option<Rejection>
  {
    if Truthy(u, "status") && u["status"] !in ValidStatuses then Some(InvalidStatus)
    else if Truthy(u, "startDate") && Truthy(u, "endDate") && NotAfter(parseDate(u["endDate"]), parseDate(u["startDate"])) then Some(EndNotAfterStart)
    else if "budget" in u && ParseInt(u["budget"]).Some? && ParseInt(u["budget"]).value <= 0 then Some(BudgetNotPositive)
    else None
  }

  /** After stripping, the update is rejected exactly when the body carries a
      non-empty status outside the four accepted values, two non-empty dates
      with the end not after the start, or a non-empty budget that parses to a
      number that is not positive. */
  lemma RejectedExactly(body: Fields, parseDate: string -> Option<int>)
    ensures CheckUpdate(WithoutEmpty(body), parseDate).Some? <==>
              || (Truthy(body, "status") && body["status"] !in ValidStatuses)
              || (Truthy(body, "startDate") && Truthy(body, "endDate") && NotAfter(parseDate(body["endDate"]), parseDate(body["startDate"])))
              || (Truthy(body, "budget") && ParseInt(body["budget"]).Some? && ParseInt(body["budget"]).value <= 0)
  {
  }

  /** A form value after the numeric coercion: text, or `Number(text)`
      (`None` standing for NaN). */
  datatype Value = Text(s: string) | Num(n: Option<int>)

  const NumericFields: seq<string> := ["budget", "eventTypeId", "venueId", "custId"]

  /** Numeric fields hold numbers and every other field holds text. */
  predicate WellCoerced(v: map<string, Value>)
  {
    forall k :: k in v ==> (v[k].Num? <==> k in NumericFields)
  }

  /** The updates after `updates[field] = toNumber(updates[field])` for each
      field of `fields` whose value is truthy. */
  function CoercedBy(u: Fields, fields: seq<string>, toNumber: string -> Option<int>): (v: map<string, Value>)
    ensures v.Keys == u.Keys
  {
    map k | k in u :: if k in fields && u[k] != "" then Num(toNumber(u[k])) else Text(u[k])
  }

  /** The updates after the coercion of the numeric fields with `Number`. */
  function Coerced(u: Fields): (v: map<string, Value>)
    ensures v.Keys == u.Keys
    ensures (forall k :: k in u ==> u[k] != "") ==> WellCoerced(v)
  {
    CoercedBy(u, NumericFields, ToNumber)
  }

  /** The coercion loop of updateEvent, over the fields and with the
      conversion it is given. */
  method CoerceFields(u: Fields, fields: seq<string>, toNumber: string -> Option<int>) returns (v: map<string, Value>)
    ensures v == CoercedBy(u, fields, toNumber)
  {
    v := map k | k in u :: Text(u[k]);
    for i := 0 to |fields|
      invariant v.Keys == u.Keys
      invariant forall k :: k in u ==>
                  v[k] == if k in fields[..i] && u[k] != "" then Num(toNumber(u[k])) else Text(u[k])
    {
      var field := fields[i];
      // the field still holds the text it was sent with
      if field in v && u[field] != "" {
        v := v[field := Num(toNumber(u[field]))];
      }
      assert fields[..i + 1] == fields[..i] + [field];
    }
    assert fields[..|fields|] == fields;
  }

  /** A text column: the new text when the key was sent. A value of the
      other kind does not occur once the updates are `WellCoerced`. */
  function TextColumn(v: map<string, Value>, key: string, current: string): string
  {
    if key in v && v[key].Text? then v[key].s else current
  }

  /** A nullable text column. */
  function NullableTextColumn(v: map<string, Value>, key: string, current: Option<string>): Option<string>
  {
    if key in v && v[key].Text? then Some(v[key].s) else current
  }

  /** A numeric column: `None` when the sent value is NaN and the write fails. */
  function NumberColumn(v: map<string, Value>, key: string, current: int): Option<int>
  {
    if key in v && v[key].Num? then v[key].n else Some(current)
  }

  /** A nullable numeric column: `None` when the write fails. */
  function NullableNumberColumn(v: map<string, Value>, key: string, current: Option<int>): Option<Option<int>>
  {
    if key in v && v[key].Num? then (if v[key].n.Some? then Some(v[key].n) else None) else Some(current)
  }

  /** A date column: `None` when the sent text is not a date and the write fails. */
  function DateColumn(v: map<string, Value>, key: string, current: int, parseDate: string -> Option<int>): Option<int>
  {
    if key in v && v[key].Text? then parseDate(v[key].s) else Some(current)
  }

  /** A nullable date column. */
  function NullableDateColumn(v: map<string, Value>, key: string, current: Option<int>, parseDate: string -> Option<int>): Option<Option<int>>
  {
    if key in v && v[key].Text? then (if parseDate(v[key].s).Some? then Some(parseDate(v[key].s)) else None) else Some(current)
  }

  /** `event.update(updates)`: every key that names a column is written and
      every other key is ignored. The write fails when a number is NaN, a date
      is invalid, the budget is below its minimum of 0, or the status lies
      outside the column's enumeration. */
  function ApplyUpdate(e: Event, v: map<string, Value>, parseDate: string -> Option<int>): (r: Option<Event>)
    ensures r.Some? ==> r.value.status in StatusEnum
    ensures r.Some? && r.value.budget.Some? ==> r.value.budget.value >= 0
  {
    var start := DateColumn(v, "startDate", e.startDate, parseDate);
    var end := NullableDateColumn(v, "end_date", e.endDate, parseDate);
    var budget := NullableNumberColumn(v, "budget", e.budget);
    var status := TextColumn(v, "status", e.status);
    var typeId := NumberColumn(v, "eventTypeId", e.eventTypeId);
    var venueId := NumberColumn(v, "venueId", e.venueId);
    var custId := NumberColumn(v, "custId", e.custId);
    if start.None? || end.None? || budget.None? || (budget.value.Some? && budget.value.value < 0)
       || status !in StatusEnum || typeId.None? || venueId.None? || custId.None?
    then None
    else Some(Event(TextColumn(v, "name", e.name), start.value, end.value,
                    NullableTextColumn(v, "desc", e.desc), budget.value, status,
                    typeId.value, venueId.value, custId.value))
  }

  /** The row updateEvent writes for `body`, or `None` when the write fails. */
  function UpdatedEvent(e: Event, body: Fields, parseDate: string -> Option<int>): Option<Event>
  {
    ApplyUpdate(e, Coerced(WithoutEmpty(body)), parseDate)
  }

  /** What the stripped and coerced updates hold for one key. */
  lemma SentValue(body: Fields, key: string)
    ensures var v := Coerced(WithoutEmpty(body));
            && (key in v <==> Truthy(body, key))
            && (key in v ==> v[key] == if key in NumericFields then Num(ToNumber(body[key])) else Text(body[key]))
  {
  }

  /** The text and date columns are not among the numeric fields. */
  lemma TextKeysAreNotNumeric()
    ensures "name" !in NumericFields && "desc" !in NumericFields && "status" !in NumericFields
    ensures "startDate" !in NumericFields && "end_date" !in NumericFields
  {
    assert NumericFields[0][0] == 'b' && NumericFields[1][0] == 'e';
    assert NumericFields[2][0] == 'v' && NumericFields[3][0] == 'c';
    assert "name"[0] == 'n' && "desc"[0] == 'd' && "status"[0] == 's';
    assert "startDate"[0] == 's' && "end_date"[1] == 'n' && NumericFields[1][1] == 'v';
  }

  /** The text columns change exactly when their key carries a non-empty value. */
  lemma TextColumnsFollowBody(e: Event, body: Fields, parseDate: string -> Option<int>)
    requires UpdatedEvent(e, body, parseDate).Some?
    ensures var r := UpdatedEvent(e, body, parseDate).value;
            && (if Truthy(body, "name") then r.name == body["name"] else r.name == e.name)
            && (if Truthy(body, "desc") then r.desc == Some(body["desc"]) else r.desc == e.desc)
            && (if Truthy(body, "status") then r.status == body["status"] else r.status == e.status)
  {
    TextKeysAreNotNumeric();
    SentValue(body, "name");
    SentValue(body, "desc");
    SentValue(body, "status");
  }

  /** The date columns change exactly when their key carries a non-empty value. */
  lemma DateColumnsFollowBody(e: Event, body: Fields, parseDate: string -> Option<int>)
    requires UpdatedEvent(e, body, parseDate).Some?
    ensures var r := UpdatedEvent(e, body, parseDate).value;
            && (if Truthy(body, "startDate") then Some(r.startDate) == parseDate(body["startDate"]) else r.startDate == e.startDate)
            && (if Truthy(body, "end_date") then r.endDate == parseDate(body["end_date"]) else r.endDate == e.endDate)
  {
    TextKeysAreNotNumeric();
    SentValue(body, "startDate");
    SentValue(body, "end_date");
  }

  /** The numeric columns change exactly when their key carries a non-empty
      value, and then hold `Number` of it. */
  lemma NumberColumnsFollowBody(e: Event, body: Fields, parseDate: string -> Option<int>)
    requires UpdatedEvent(e, body, parseDate).Some?
    ensures var r := UpdatedEvent(e, body, parseDate).value;
            && (if Truthy(body, "budget") then r.budget == ToNumber(body["budget"]) else r.budget == e.budget)
            && (if Truthy(body, "eventTypeId") then Some(r.eventTypeId) == ToNumber(body["eventTypeId"]) else r.eventTypeId == e.eventTypeId)
            && (if Truthy(body, "venueId") then Some(r.venueId) == ToNumber(body["venueId"]) else r.venueId == e.venueId)
            && (if Truthy(body, "custId") then Some(r.custId) == ToNumber(body["custId"]) else r.custId == e.custId)
  {
    SentValue(body, "budget");
    SentValue(body, "eventTypeId");
    SentValue(body, "venueId");
    SentValue(body, "custId");
  }

  /** Sending the same update again changes nothing more. */
  lemma UpdateIsIdempotent(e: Event, body: Fields, parseDate: string -> Option<int>)
    requires UpdatedEvent(e, body, parseDate).Some?
    ensures UpdatedEvent(UpdatedEvent(e, body, parseDate).value, body, parseDate) == UpdatedEvent(e, body, parseDate)
  {
    var e' := UpdatedEvent(e, body, parseDate).value;
    var r := UpdatedEvent(e', body, parseDate);
    assert r.Some?;
  }

  /** 'cancelled' passes the handler's status check, but the status column's
      enumeration lacks it, so the write fails. */
  lemma CancelledPassesCheckButNotColumn(e: Event, parseDate: string -> Option<int>)
    ensures CheckUpdate(WithoutEmpty(map["status" := "cancelled"]), parseDate).None?
    ensures UpdatedEvent(e, map["status" := "cancelled"], parseDate).None?
  {
    var body := map["status" := "cancelled"];
    assert WithoutEmpty(body) == body;
    TextKeysAreNotNumeric();
    SentValue(body, "status");
    assert "cancelled" !in StatusEnum;
  }

  /** A blank (white-space only) budget passes the positivity check, because
      `parseFloat` reads it as NaN, and is then stored as 0, because `Number`
      reads it as 0. */
  lemma BlankBudgetStoresZero(e: Event, body: Fields, parseDate: string -> Option<int>)
    requires Truthy(body, "budget") && Trim(body["budget"]) == ""
    requires UpdatedEvent(e, body, parseDate).Some?
    ensures CheckUpdate(WithoutEmpty(body), parseDate) != Some(BudgetNotPositive)
    ensures UpdatedEvent(e, body, parseDate).value.budget == Some(0)
  {
    BlankText(body["budget"]);
    BudgetCheck(body, parseDate);
    StoredBudget(e, body, parseDate);
  }

  /** The budget check looks only at what `parseFloat` reads from the sent
      budget. */
  lemma BudgetCheck(body: Fields, parseDate: string -> Option<int>)
    requires Truthy(body, "budget")
    ensures CheckUpdate(WithoutEmpty(body), parseDate) == Some(BudgetNotPositive) ==>
              ParseInt(body["budget"]).Some? && ParseInt(body["budget"]).value <= 0
    ensures CheckUpdate(WithoutEmpty(body), parseDate).None? ==>
              ParseInt(body["budget"]).None? || ParseInt(body["budget"]).value > 0
  {
    var u := WithoutEmpty(body);
    assert "budget" in u && u["budget"] == body["budget"];
  }

  /** A sent budget is stored as what `Number` reads from it. */
  lemma StoredBudget(e: Event, body: Fields, parseDate: string -> Option<int>)
    requires Truthy(body, "budget")
    requires UpdatedEvent(e, body, parseDate).Some?
    ensures UpdatedEvent(e, body, parseDate).value.budget == ToNumber(body["budget"])
  {
    NumberColumnsFollowBody(e, body, parseDate);
  }

  /** With the budget read by `Number`, as the stored value is, every budget
      that passes the check and is stored is positive. */
  function CheckUpdateCorrected(u: Fields, parseDate: string -> Option<int>): Option<Rejection>
  {
    if Truthy(u, "status") && u["status"] !in ValidStatuses then Some(InvalidStatus)
    else if Truthy(u, "startDate") && Truthy(u, "endDate") && NotAfter(parseDate(u["endDate"]), parseDate(u["startDate"])) then Some(EndNotAfterStart)
    else if "budget" in u && ToNumber(u["budget"]).Some? && ToNumber(u["budget"]).value <= 0 then Some(BudgetNotPositive)
    else None
  }

  lemma CorrectedCheckStoresPositiveBudget(e: Event, body: Fields, parseDate: string -> Option<int>)
    requires CheckUpdateCorrected(WithoutEmpty(body), parseDate).None?
    requires UpdatedEvent(e, body, parseDate).Some?
    requires Truthy(body, "budget")
    ensures UpdatedEvent(e, body, parseDate).value.budget.Some? && UpdatedEvent(e, body, parseDate).value.budget.value > 0
  {
    StoredBudget(e, body, parseDate);
    CorrectedBudgetCheck(body, parseDate);
  }

  /** The corrected check passes only a budget `Number` reads as NaN or as
      a positive number. */
  lemma CorrectedBudgetCheck(body: Fields, parseDate: string -> Option<int>)
    requires Truthy(body, "budget")
    ensures CheckUpdateCorrected(WithoutEmpty(body), parseDate).None? ==>
              ToNumber(body["budget"]).None? || ToNumber(body["budget"]).value > 0
  {
    var u := WithoutEmpty(body);
    assert "budget" in u && u["budget"] == body["budget"];
  }

  /** As written, a budget stored by a successful update is positive unless
      the submitted text was blank. */
  lemma StoredBudgetPositiveUnlessBlank(e: Event, body: Fields, parseDate: string -> Option<int>)
    requires CheckUpdate(WithoutEmpty(body), parseDate).None?
    requires UpdatedEvent(e, body, parseDate).Some?
    requires Truthy(body, "budget") && Trim(body["budget"]) != ""
    ensures UpdatedEvent(e, body, parseDate).value.budget.Some? && UpdatedEvent(e, body, parseDate).value.budget.value > 0
  {
    StoredBudget(e, body, parseDate);
    BudgetCheck(body, parseDate);
    var n := ToNumber(body["budget"]).value;
    NumberAgreesWithParseInt(body["budget"], n);
  }

  /** The date check reads the `endDate` key, but the column is `end_date`
      and its own validator compares with `this.start_date`, which is not a
      column: an `end_date` before the start date is stored. */
  lemma EndDateBeforeStartAccepted(e: Event, body: Fields, parseDate: string -> Option<int>, start: int, end: int)
    requires e.status in StatusEnum && (e.budget.Some? ==> e.budget.value >= 0)
    requires Truthy(body, "startDate") && parseDate(body["startDate"]) == Some(start)
    requires Truthy(body, "end_date") && parseDate(body["end_date"]) == Some(end) && end < start
    requires !Truthy(body, "endDate") && !Truthy(body, "status") && !Truthy(body, "budget")
    requires !Truthy(body, "name") && !Truthy(body, "desc")
    requires !Truthy(body, "eventTypeId") && !Truthy(body, "venueId") && !Truthy(body, "custId")
    ensures CheckUpdate(WithoutEmpty(body), parseDate).None?
    ensures UpdatedEvent(e, body, parseDate) == Some(e.(startDate := start, endDate := Some(end)))
  {
    RejectedExactly(body, parseDate);
    TextKeysAreNotNumeric();
    SentValue(body, "startDate");
    SentValue(body, "end_date");
    SentValue(body, "status");
    SentValue(body, "budget");
    SentValue(body, "name");
    SentValue(body, "desc");
    SentValue(body, "eventTypeId");
    SentValue(body, "venueId");
    SentValue(body, "custId");
  }

  /** The write with the end-date validator comparing against `startDate`,
      as the model evidently intends: a written end date must follow the
      start date of the row being saved. */
  function UpdatedEventCorrected(e: Event, body: Fields, parseDate: string -> Option<int>): Option<Event>
  {
    var r := UpdatedEvent(e, body, parseDate);
    if r.Some? && Truthy(body, "end_date") && r.value.endDate.Some? && r.value.endDate.value <= r.value.startDate then None
    else r
  }

  lemma CorrectedWriteKeepsEndAfterStart(e: Event, body: Fields, parseDate: string -> Option<int>)
    requires UpdatedEventCorrected(e, body, parseDate).Some?
    requires Truthy(body, "end_date")
    ensures var r := UpdatedEventCorrected(e, body, parseDate).value;
            r.endDate.Some? && r.endDate.value > r.startDate
  {
    TextKeysAreNotNumeric();
    SentValue(body, "end_date");
  }

  /** The foreign keys the write changes name stored rows. Sequelize's
      `update` writes only the changed columns, and MySQL checks
      `events.eventTypeId`, `venueId` and `custId` against their tables
      when the column changes. */
  predicate KeysStored(before: Event, after: Event, types: map<int, EventType>, venues: map<int, Venue>,
                       customers: map<int, Customer>)
  {
    && (after.eventTypeId != before.eventTypeId ==> after.eventTypeId in types)
    && (after.venueId != before.venueId ==> after.venueId in venues)
    && (after.custId != before.custId ==> after.custId in customers)
  }

  /** A write the foreign keys accept keeps every event's references stored. */
  lemma WriteKeepsRefs(events: map<int, Event>, id: int, row: Event, types: map<int, EventType>,
                       venues: map<int, Venue>, customers: map<int, Customer>)
    requires id in events && KeysStored(events[id], row, types, venues, customers)
    ensures EventTypeRefsIntact(events, types) ==> EventTypeRefsIntact(events[id := row], types)
    ensures VenueRefsIntact(events, venues) ==> VenueRefsIntact(events[id := row], venues)
    ensures CustomerRefsIntact(events, customers) ==> CustomerRefsIntact(events[id := row], customers)
  {
  }

  /** updateEvent as the handler evidently intends it, with the re-read
      including the associations under the names they are declared with:
      404, 400, or 200 with the written row, and 500 when the write
      fails: a column refuses its value, a changed key names no stored
      row, or the database fails otherwise (`writeOk`). */
  method UpdateEventCorrected(db: Db, id: int, body: Fields, parseDate: string -> Option<int>, writeOk: bool)
    returns (status: int, updated: Option<Event>)
    modifies db`events
    ensures status == NOT_FOUND <==> id !in old(db.events)
    ensures status == BAD_REQUEST <==> id in old(db.events) && CheckUpdate(WithoutEmpty(body), parseDate).Some?
    ensures status == OK <==>
              && id in old(db.events) && CheckUpdate(WithoutEmpty(body), parseDate).None?
              && UpdatedEvent(old(db.events)[id], body, parseDate).Some?
              && KeysStored(old(db.events)[id], UpdatedEvent(old(db.events)[id], body, parseDate).value,
                            db.eventTypes, db.venues, db.customers)
              && writeOk
    ensures status in {OK, BAD_REQUEST, NOT_FOUND, SERVER_ERROR}
    ensures status == OK ==>
              && updated == UpdatedEvent(old(db.events)[id], body, parseDate)
              && db.events == old(db.events)[id := updated.value]
    ensures status != OK ==> db.events == old(db.events) && updated.None?
    ensures EventTypeRefsIntact(old(db.events), db.eventTypes) ==> EventTypeRefsIntact(db.events, db.eventTypes)
    ensures VenueRefsIntact(old(db.events), db.venues) ==> VenueRefsIntact(db.events, db.venues)
    ensures CustomerRefsIntact(old(db.events), db.customers) ==> CustomerRefsIntact(db.events, db.customers)
  {
    updated := None;
    if id !in db.events {
      return NOT_FOUND, updated;
    }
    var updates := StripEmpty(body);
    if CheckUpdate(updates, parseDate).Some? {
      return BAD_REQUEST, updated;
    }
    var values := CoerceFields(updates, NumericFields, ToNumber);
    var row := ApplyUpdate(db.events[id], values, parseDate);
    if row.None? || !KeysStored(db.events[id], row.value, db.eventTypes, db.venues, db.customers) || !writeOk {
      return SERVER_ERROR, updated;
    }
    WriteKeepsRefs(db.events, id, row.value, db.eventTypes, db.venues, db.customers);
    db.events := db.events[id := row.value];
    updated := Some(db.events[id]);
    status := OK;
  }

  /** updateEvent as written: after `event.update` has committed, the
      re-read with `include` names aliases no association declares and
      throws, so the catch answers 500. `written` is the row the update
      stored: a 500 with `written.Some?` is a change the client is told
      failed. The handler never answers 200. */
  method UpdateEvent(db: Db, id: int, body: Fields, parseDate: string -> Option<int>, writeOk: bool)
    returns (status: int, written: Option<Event>)
    modifies db`events
    ensures status == NOT_FOUND <==> id !in old(db.events)
    ensures status == BAD_REQUEST <==> id in old(db.events) && CheckUpdate(WithoutEmpty(body), parseDate).Some?
    ensures status in {BAD_REQUEST, NOT_FOUND, SERVER_ERROR}
    ensures written.Some? <==>
              && id in old(db.events) && CheckUpdate(WithoutEmpty(body), parseDate).None?
              && UpdatedEvent(old(db.events)[id], body, parseDate).Some?
              && KeysStored(old(db.events)[id], UpdatedEvent(old(db.events)[id], body, parseDate).value,
                            db.eventTypes, db.venues, db.customers)
              && writeOk
    ensures written.Some? ==>
              && status == SERVER_ERROR
              && written == UpdatedEvent(old(db.events)[id], body, parseDate)
              && db.events == old(db.events)[id := written.value]
    ensures written.None? ==> db.events == old(db.events)
    ensures EventTypeRefsIntact(old(db.events), db.eventTypes) ==> EventTypeRefsIntact(db.events, db.eventTypes)
    ensures VenueRefsIntact(old(db.events), db.venues) ==> VenueRefsIntact(db.events, db.venues)
    ensures CustomerRefsIntact(old(db.events), db.customers) ==> CustomerRefsIntact(db.events, db.customers)
  {
    status, written := UpdateEventCorrected(db, id, body, parseDate, writeOk);
    EventIncludesDoNotResolve();
    if status == OK && !IncludesResolve(EventIncludes, EventAssociations) {
      status := SERVER_ERROR;
    }
  }

  /** deleteEvent. */
  method DeleteEvent(db: Db, id: int) returns (status: int)
    modifies db`events
    ensures status == NOT_FOUND <==> id !in old(db.events)
    ensures status == OK <==> id in old(db.events)
    ensures db.events == old(db.events) - {id}
  {
    if id !in db.events {
      return NOT_FOUND;
    }
    db.events := db.events - {id};
    status := OK;
  }
}
