/** venueController.js over the `venues` table of venue.model.js. The
    handlers destructure `name, location, capacity, availability, image`
    from the body and hand that object to the table, whose columns are
    `name`, `location`, `max_occupancy`, `email` and `phone`: attributes
    that are not columns are ignored, and the NOT NULL columns
    `max_occupancy` and `phone` are never among those passed. */
module VenueController {
  import opened Common
  import opened JsText
  import opened Tables
  import opened Records
  import opened Database

  /** What createVenue destructures from the body. */
  const CreateAttributes: seq<string> := ["name", "location", "capacity", "availability", "image"]
  /** What updateVenue destructures from the body. */
  const UpdateAttributes: seq<string> := ["name", "location", "capacity", "availability"]
  /** The columns of the table, as Venue.jsx posts them. */
  const FormAttributes: seq<string> := ["name", "location", "max_occupancy", "email", "phone"]

  /** The object `{ a, b, ... } = req.body` builds: the listed keys the body
      carries (an undefined attribute is not written). */
  function Pick(body: Fields, keys: seq<string>): (r: Fields)
    ensures forall k :: k in r <==> k in body && k in keys
    ensures forall k :: k in r ==> r[k] == body[k]
  {
    map k | k in body && k in keys :: body[k]
  }

  /** Neither destructured list names `max_occupancy`, `email` or `phone`. */
  lemma DestructuredKeysAreNotColumns()
    ensures "max_occupancy" !in CreateAttributes && "phone" !in CreateAttributes && "email" !in CreateAttributes
    ensures "max_occupancy" !in UpdateAttributes && "phone" !in UpdateAttributes && "email" !in UpdateAttributes
  {
    assert CreateAttributes[0][0] == 'n' && CreateAttributes[1][0] == 'l' && CreateAttributes[2][0] == 'c';
    assert CreateAttributes[3][0] == 'a' && CreateAttributes[4][0] == 'i';
    assert "max_occupancy"[0] == 'm' && "phone"[0] == 'p' && "email"[0] == 'e';
  }

  /** The row `Venue.create(attrs)` stores, or `None` when validation fails:
      a NOT NULL column is missing, `max_occupancy` is not a number of at
      least 1, or an `email` fails the e-mail check. */
  function BuildVenue(attrs: Fields, isEmail: string -> bool): (r: Option<Venue>)
    ensures r.Some? <==>
              && "name" in attrs && "location" in attrs && "phone" in attrs
              && "max_occupancy" in attrs && ToNumber(attrs["max_occupancy"]).Some?
              && ToNumber(attrs["max_occupancy"]).value >= 1
              && ("email" in attrs ==> isEmail(attrs["email"]))
    ensures r.Some? ==>
              && r.value.name == attrs["name"] && r.value.location == attrs["location"]
              && r.value.phone == attrs["phone"] && r.value.email == Get(attrs, "email")
              && Some(r.value.maxOccupancy) == ToNumber(attrs["max_occupancy"]) && r.value.maxOccupancy >= 1
  {
    if "name" !in attrs || "location" !in attrs || "phone" !in attrs || "max_occupancy" !in attrs then None
    else
      var occupancy := ToNumber(attrs["max_occupancy"]);
      if occupancy.None? || occupancy.value < 1 then None
      else if "email" in attrs && !isEmail(attrs["email"]) then None
      else Some(Venue(attrs["name"], attrs["location"], occupancy.value, Get(attrs, "email"), attrs["phone"]))
  }

  /** The row createVenue asks for: it can never be built, because the
      object passed names neither `max_occupancy` nor `phone`. */
  function NewVenue(body: Fields, isEmail: string -> bool): (r: Option<Venue>)
    ensures r.None?
  {
    DestructuredKeysAreNotColumns();
    BuildVenue(Pick(body, CreateAttributes), isEmail)
  }

  /** The row built from the columns the venue form posts, as evidently
      intended: it exists exactly when the form's values pass the column
      checks, and then holds them. */
  function NewVenueCorrected(body: Fields, isEmail: string -> bool): (r: Option<Venue>)
    ensures r.Some? <==>
              && "name" in body && "location" in body && "phone" in body
              && "max_occupancy" in body && ToNumber(body["max_occupancy"]).Some?
              && ToNumber(body["max_occupancy"]).value >= 1
              && ("email" in body ==> isEmail(body["email"]))
    ensures r.Some? ==>
              && r.value.name == body["name"] && r.value.location == body["location"]
              && r.value.phone == body["phone"] && r.value.email == Get(body, "email")
              && Some(r.value.maxOccupancy) == ToNumber(body["max_occupancy"])
  {
    assert FormAttributes[0] == "name" && FormAttributes[1] == "location";
    assert FormAttributes[2] == "max_occupancy" && FormAttributes[3] == "email" && FormAttributes[4] == "phone";
    BuildVenue(Pick(body, FormAttributes), isEmail)
  }

  /** No stored venue has `email` under the collation; a missing e-mail
      (NULL) is always free. */
  predicate EmailFree(venues: map<int, Venue>, email: Option<string>, collate: string -> string)
  {
    email.Some? ==> forall k :: k in venues && venues[k].email.Some? ==> collate(venues[k].email.value) != collate(email.value)
  }

  /** A row whose e-mail is free keeps venue e-mails unique. */
  lemma InsertKeepsVenueEmailsUnique(venues: map<int, Venue>, id: int, row: Venue, collate: string -> string)
    requires UniqueVenueEmails(venues, collate) && id !in venues
    requires EmailFree(venues, row.email, collate)
    ensures UniqueVenueEmails(venues[id := row], collate)
  {
    var after := venues[id := row];
    forall a, b | a in after && b in after && after[a].email.Some? && after[b].email.Some?
                  && collate(after[a].email.value) == collate(after[b].email.value)
      ensures a == b
    {
      if a != id && b != id {
        assert after[a] == venues[a] && after[b] == venues[b];
      }
    }
  }

  /** `Venue.create(attrs)`: the insert at the next key, or 500 when the row
      does not validate or its e-mail is already stored. */
  method InsertVenue(db: Db, attrs: Fields, isEmail: string -> bool) returns (status: int, created: Option<int>)
    requires db.Valid()
    modifies db`venues, db`nextVenueId
    ensures db.Valid()
    ensures status == CREATED <==>
              BuildVenue(attrs, isEmail).Some? && EmailFree(old(db.venues), BuildVenue(attrs, isEmail).value.email, db.collate)
    ensures status == CREATED || status == SERVER_ERROR
    ensures status == CREATED ==>
              && created == Some(old(db.nextVenueId)) && old(db.nextVenueId) !in old(db.venues)
              && db.venues == old(db.venues)[old(db.nextVenueId) := BuildVenue(attrs, isEmail).value]
    ensures status != CREATED ==> db.venues == old(db.venues) && db.nextVenueId == old(db.nextVenueId) && created.None?
  {
    var row := BuildVenue(attrs, isEmail);
    if row.None? || !EmailFree(db.venues, row.value.email, db.collate) {
      return SERVER_ERROR, None;
    }
    var id := db.nextVenueId;
    KeysBelowAfterInsert(db.venues, id, row.value);
    InsertKeepsVenueEmailsUnique(db.venues, id, row.value, db.collate);
    db.venues := db.venues[id := row.value];
    db.nextVenueId := id + 1;
    return CREATED, Some(id);
  }

  /** createVenue: always 500, nothing is inserted. */
  method CreateVenue(db: Db, body: Fields, isEmail: string -> bool) returns (status: int, created: Option<int>)
    requires db.Valid()
    modifies db`venues, db`nextVenueId
    ensures db.Valid()
    ensures status == SERVER_ERROR && created.None?
    ensures db.venues == old(db.venues) && db.nextVenueId == old(db.nextVenueId)
  {
    var attrs := Pick(body, CreateAttributes);
    ghost var row := NewVenue(body, isEmail);
    status, created := InsertVenue(db, attrs, isEmail);
  }

  /** The row after `venue.update({ name, location, capacity, availability })`:
      only `name` and `location` are columns, each written when the body
      carries it. */
  function UpdatedVenue(v: Venue, attrs: Fields): Venue
  {
    v.(name := GetOr(attrs, "name", v.name), location := GetOr(attrs, "location", v.location))
  }

  /** An update changes the name and location the body carries and nothing
      else: capacity and availability never reach the row. */
  lemma UpdateTouchesNameAndLocationOnly(v: Venue, body: Fields)
    ensures var u := UpdatedVenue(v, Pick(body, UpdateAttributes));
            && u.name == (if "name" in body then body["name"] else v.name)
            && u.location == (if "location" in body then body["location"] else v.location)
            && u.maxOccupancy == v.maxOccupancy && u.email == v.email && u.phone == v.phone
  {
    assert UpdateAttributes[0] == "name" && UpdateAttributes[1] == "location";
  }

  /** Updating twice with the same body leaves the row as one update did. */
  lemma UpdateVenueIsIdempotent(v: Venue, body: Fields)
    ensures var attrs := Pick(body, UpdateAttributes);
            UpdatedVenue(UpdatedVenue(v, attrs), attrs) == UpdatedVenue(v, attrs)
  {
    UpdateTouchesNameAndLocationOnly(v, body);
  }

  /** getAllVenues: every row, in key order. */
  method GetAllVenues(db: Db) returns (status: int, ids: seq<int>, rows: seq<Venue>)
    ensures status == OK
    ensures forall id :: id in ids <==> id in db.venues
    ensures Increasing(ids) && |ids| == |db.venues|
    ensures |rows| == |ids| && forall i :: 0 <= i < |ids| ==> ids[i] in db.venues && rows[i] == db.venues[ids[i]]
  {
    ids := SortedKeys(db.venues.Keys);
    rows := Rows(ids, db.venues);
    status := OK;
  }

  /** An update keeps the e-mail, so venue e-mails stay unique. */
  lemma UpdateKeepsVenueEmailsUnique(venues: map<int, Venue>, id: int, attrs: Fields, collate: string -> string)
    requires UniqueVenueEmails(venues, collate) && id in venues
    ensures UniqueVenueEmails(venues[id := UpdatedVenue(venues[id], attrs)], collate)
  {
    var after := venues[id := UpdatedVenue(venues[id], attrs)];
    forall k | k in after
      ensures after[k].email == venues[k].email
    {
    }
  }

  /** updateVenue: 404, or 200 with the updated row. */
  method UpdateVenue(db: Db, id: int, body: Fields) returns (status: int, updated: Option<Venue>)
    requires db.Valid()
    modifies db`venues
    ensures db.Valid()
    ensures status == NOT_FOUND <==> id !in old(db.venues)
    ensures status == OK <==> id in old(db.venues)
    ensures status == OK ==>
              && updated == Some(UpdatedVenue(old(db.venues)[id], Pick(body, UpdateAttributes)))
              && db.venues == old(db.venues)[id := updated.value]
    ensures status != OK ==> db.venues == old(db.venues) && updated.None?
  {
    if id !in db.venues {
      return NOT_FOUND, None;
    }
    var attrs := Pick(body, UpdateAttributes);
    UpdateKeepsVenueEmailsUnique(db.venues, id, attrs, db.collate);
    db.venues := db.venues[id := UpdatedVenue(db.venues[id], attrs)];
    return OK, Some(db.venues[id]);
  }

  /** Some event is held at the venue. */
  predicate HasEvents(events: map<int, Event>, venueId: int)
  {
    exists e :: e in events && events[e].venueId == venueId
  }

  /** deleteVenue: 404, or 204 once the row is gone. Unlike the customer
      delete the handler does not look for events held at the venue; the
      foreign key `events.venueId` does. Declared NOT NULL with `belongsTo`,
      it takes ON DELETE NO ACTION, so the DELETE of a venue that events
      name fails and the catch answers 500. */
  method DeleteVenue(db: Db, id: int) returns (status: int)
    requires db.Valid()
    modifies db`venues
    ensures db.Valid()
    ensures status == NOT_FOUND <==> id !in old(db.venues)
    ensures status == SERVER_ERROR <==> id in old(db.venues) && HasEvents(db.events, id)
    ensures status == NO_CONTENT <==> id in old(db.venues) && !HasEvents(db.events, id)
    ensures status == NO_CONTENT ==> db.venues == old(db.venues) - {id}
    ensures status != NO_CONTENT ==> db.venues == old(db.venues)
    ensures VenueRefsIntact(db.events, old(db.venues)) ==> VenueRefsIntact(db.events, db.venues)
  {
    if id !in db.venues {
      return NOT_FOUND;
    }
    if HasEvents(db.events, id) {
      return SERVER_ERROR;
    }
    db.venues := db.venues - {id};
    status := NO_CONTENT;
  }
}
