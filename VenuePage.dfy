/** The venue page of the front end (pages/Venue.jsx): the `venues` list it
    holds and how a delete and a form submission change it. The server's
    answers are parameters: `None` when the request fails, otherwise the
    venue the page reads from the reply. */
module VenuePage {
  import opened Common
  import opened Records

  /** A listed venue: its key and its columns. */
  datatype VenueItem = VenueItem(venueId: int, venue: Venue)

  /** `prev.filter((v) => v.venueId !== id)`. */
  function Without(venues: seq<VenueItem>, id: int): (r: seq<VenueItem>)
    ensures forall x :: x in r <==> x in venues && x.venueId != id
    ensures |r| <= |venues|
  {
    if venues == [] then []
    else if venues[0].venueId == id then Without(venues[1..], id)
    else [venues[0]] + Without(venues[1..], id)
  }

  /** The filter goes piece by piece, so the venues kept stay in order. */
  lemma {:induction false} WithoutKeepsOrder(a: seq<VenueItem>, b: seq<VenueItem>, id: int)
    ensures Without(a + b, id) == Without(a, id) + Without(b, id)
  {
    if a != [] {
      assert (a + b)[0] == a[0] && (a + b)[1..] == a[1..] + b;
      WithoutKeepsOrder(a[1..], b, id);
    } else {
      assert a + b == b;
    }
  }

  /** A list with no entry for the id is left as it is. */
  lemma {:induction false} WithoutAbsentIsIdentity(venues: seq<VenueItem>, id: int)
    requires forall i :: 0 <= i < |venues| ==> venues[i].venueId != id
    ensures Without(venues, id) == venues
  {
    if venues != [] {
      WithoutAbsentIsIdentity(venues[1..], id);
      assert [venues[0]] + venues[1..] == venues;
    }
  }

  /** Deleting the same id twice removes nothing more. */
  lemma WithoutIsIdempotent(venues: seq<VenueItem>, id: int)
    ensures Without(Without(venues, id), id) == Without(venues, id)
  {
    var once := Without(venues, id);
    forall i | 0 <= i < |once|
      ensures once[i].venueId != id
    {
      assert once[i] in once;
    }
    WithoutAbsentIsIdentity(once, id);
  }

  /** `prev.map((v) => v.venueId === updated.venueId ? updated : v)`. */
  function Replaced(venues: seq<VenueItem>, updated: VenueItem): (r: seq<VenueItem>)
    ensures |r| == |venues|
    ensures forall i :: 0 <= i < |r| ==> r[i] == (if venues[i].venueId == updated.venueId then updated else venues[i])
  {
    if venues == [] then []
    else [if venues[0].venueId == updated.venueId then updated else venues[0]] + Replaced(venues[1..], updated)
  }

  /** A replacement touches no other venue, keeps every key in its place,
      and a second identical replacement changes nothing. */
  lemma ReplacedKeepsOthers(venues: seq<VenueItem>, updated: VenueItem)
    ensures forall i :: 0 <= i < |venues| ==> Replaced(venues, updated)[i].venueId == venues[i].venueId
    ensures forall x :: x in venues && x.venueId != updated.venueId ==> x in Replaced(venues, updated)
    ensures Replaced(Replaced(venues, updated), updated) == Replaced(venues, updated)
  {
    var r := Replaced(venues, updated);
    forall x | x in venues && x.venueId != updated.venueId
      ensures x in r
    {
      var i :| 0 <= i < |venues| && venues[i] == x;
      assert r[i] == x;
    }
  }

  /** The fields `handleSubmit` appends to the form data, in order. */
  const FormFields: seq<string> := ["name", "location", "max_occupancy", "email", "phone"]

  /** The values typed into the venue form. */
  datatype VenueForm = VenueForm(name: string, location: string, maxOccupancy: string, email: string, phone: string)

  /** The form data sent: the five typed values, and the image only when one
      is selected. */
  function FormData(form: VenueForm, image: Option<string>): (sent: Fields)
    ensures forall k :: k in FormFields ==> k in sent
    ensures "image" in sent <==> image.Some?
    ensures image.Some? ==> sent["image"] == image.value
    ensures forall k :: k in sent ==> k in FormFields || k == "image"
  {
    var fields := map["name" := form.name, "location" := form.location, "max_occupancy" := form.maxOccupancy,
                      "email" := form.email, "phone" := form.phone];
    if image.Some? then fields["image" := image.value] else fields
  }

  const SubmitFailed: string := "Failed to submit venue data."

  /** The state of the page. `editing` is the key of the venue whose update
      form is open (`showUpdateForm`), `adding` whether the add form is. */
  class VenuePage {
    var venues: seq<VenueItem>
    var loading: bool
    var error: Option<string>
    var image: Option<string>
    var editing: Option<int>
    var adding: bool

    constructor ()
      ensures venues == [] && loading && error.None? && image.None? && editing.None? && !adding
    {
      venues, loading, error, image, editing, adding := [], true, None, None, None, false;
    }

    /** handleDelete: once the delete request succeeds, every entry with
        that key goes and the others stay in order; on failure nothing
        changes. */
    method HandleDelete(id: int, deleted: bool)
      modifies this
      ensures deleted ==> venues == Without(old(venues), id)
      ensures !deleted ==> venues == old(venues)
      ensures loading == old(loading) && error == old(error) && image == old(image)
      ensures editing == old(editing) && adding == old(adding)
    {
      if deleted {
        venues := Without(venues, id);
      }
    }

    /** handleSubmit: the form goes out with the selected image, if any. A
        reply replaces the venue with its key when the update form is open,
        or is appended otherwise; a failed request leaves the list and sets
        the error. The image is cleared and loading ends either way. */
    method HandleSubmit(form: VenueForm, reply: Option<VenueItem>) returns (sent: Fields)
      modifies this
      ensures sent == FormData(form, old(image))
      ensures reply.Some? && old(editing).Some? ==>
                venues == Replaced(old(venues), reply.value) && editing.None? && adding == old(adding)
      ensures reply.Some? && old(editing).None? ==>
                venues == old(venues) + [reply.value] && !adding && editing.None?
      ensures reply.Some? ==> error.None?
      ensures reply.None? ==>
                venues == old(venues) && error == Some(SubmitFailed) && editing == old(editing) && adding == old(adding)
      ensures !loading && image.None?
    {
      loading := true;
      error := None;
      sent := FormData(form, image);
      if reply.None? {
        error := Some(SubmitFailed);
      } else if editing.Some? {
        venues := Replaced(venues, reply.value);
        editing := None;
      } else {
        venues := venues + [reply.value];
        adding := false;
      }
      loading := false;
      image := None;
    }
  }
}
