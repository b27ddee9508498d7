/** The employee list of the front end (components/EmployeeList.jsx): an
    offset into the list, the total the server counted, and the page of
    rows, moved ten at a time by Next and Previous. The reply to each
    request is a parameter: `None` when it fails, otherwise the body
    getEmployees answers. */
module EmployeeListView {
  import opened Common
  import opened JsText
  import opened Tables
  import opened Records
  import opened EmployeeController
  import CustomerController

  /** `const [limit] = useState(10)`: it never changes. */
  const Limit: nat := 10

  /** `Math.floor(offset / limit) + 1`. */
  function CurrentPage(offset: int): int
  {
    offset / Limit + 1
  }

  /** `Math.ceil(total / limit)`. */
  function PageCount(total: nat): nat
  {
    CustomerController.CeilDiv(total, Limit)
  }

  /** The Previous button: `disabled={offset === 0}`. */
  predicate PreviousDisabled(offset: int)
  {
    offset == 0
  }

  /** The Next button: `disabled={offset + limit >= total}`. */
  predicate NextDisabled(offset: int, total: int)
  {
    offset + Limit >= total
  }

  /** An offset the list can hold: a non-negative multiple of the limit. */
  predicate PageAligned(offset: int)
  {
    offset >= 0 && offset % Limit == 0
  }

  /** On an aligned offset Next is enabled exactly when a later page exists. */
  lemma NextEnabledIffLaterPage(offset: int, total: nat)
    requires PageAligned(offset)
    ensures !NextDisabled(offset, total) <==> CurrentPage(offset) < PageCount(total)
  {
    var m := offset / Limit + 1;
    var p := PageCount(total);
    assert offset + Limit == m * Limit;
    if p > m {
      assert (p - 1) * Limit < total;
      assert (p - 1) * Limit >= m * Limit;
    }
    if m * Limit < total {
      assert p * Limit >= total;
      assert p * Limit > m * Limit;
    }
  }

  /** On an aligned offset Previous is enabled exactly past the first page. */
  lemma PreviousEnabledIffPastFirstPage(offset: int)
    requires PageAligned(offset)
    ensures !PreviousDisabled(offset) <==> CurrentPage(offset) > 1
  {
    assert offset == offset / Limit * Limit;
  }

  /** `?offset=${pageOffset}&limit=${limit}`. */
  function Query(pageOffset: nat, limit: nat): Fields
  {
    map["offset" := NatText(pageOffset), "limit" := NatText(limit)]
  }

  lemma QueryKeysDistinct()
    ensures "offset" != "limit" && "role" != "offset" && "role" != "limit"
  {
    assert "offset"[0] == 'o' && "limit"[0] == 'l' && "role"[0] == 'r';
  }

  /** A key carrying a number's text reads back as that number. */
  lemma ReadsBack(query: Fields, key: string, n: nat, dflt: int)
    requires key in query && query[key] == NatText(n)
    ensures SqlCount(IntParam(query, key, dflt)) == Some(n)
  {
    NatTextRoundTrip(n);
  }

  /** getEmployees reads the request back as that offset and limit, with
      no role filter. */
  lemma ServerReadsQuery(pageOffset: nat, limit: nat)
    ensures SqlCount(IntParam(Query(pageOffset, limit), "offset", 0)) == Some(pageOffset)
    ensures SqlCount(IntParam(Query(pageOffset, limit), "limit", 10)) == Some(limit)
    ensures Filter(Query(pageOffset, limit), "role").None?
  {
    var query := Query(pageOffset, limit);
    QueryKeysDistinct();
    ReadsBack(query, "offset", pageOffset, 0);
    ReadsBack(query, "limit", limit, 10);
  }

  const LoadFailed: string := "Failed to load employees."

  class EmployeeListView {
    var employees: seq<Employee>
    var total: nat
    var offset: int
    var loading: bool
    var error: Option<string>

    /** The offset stays a non-negative multiple of the limit. */
    predicate Valid()
      reads this
    {
      PageAligned(offset)
    }

    constructor ()
      ensures Valid()
      ensures employees == [] && total == 0 && offset == 0 && loading && error.None?
    {
      employees, total, offset, loading, error := [], 0, 0, true, None;
    }

    /** fetchEmployees: on a reply the rows, the total and the offset asked
        for are taken over and the error cleared; on a failure only the
        error changes. */
    method Fetch(pageOffset: int, reply: Option<EmployeePage>)
      modifies this
      ensures reply.Some? ==>
                employees == reply.value.data && total == reply.value.total && offset == pageOffset && error.None?
      ensures reply.None? ==>
                employees == old(employees) && total == old(total) && offset == old(offset) && error == Some(LoadFailed)
      ensures !loading
    {
      loading := true;
      if reply.Some? {
        employees := reply.value.data;
        total := reply.value.total;
        offset := pageOffset;
        error := None;
      } else {
        error := Some(LoadFailed);
      }
      loading := false;
    }

    /** handleNext: fetches the next offset only while Next is enabled,
        and returns the offset it asked for. */
    method HandleNext(reply: Option<EmployeePage>) returns (requested: Option<int>)
      requires Valid()
      modifies this
      ensures Valid()
      ensures requested.Some? <==> !old(NextDisabled(offset, total))
      ensures requested.None? ==> unchanged(this)
      ensures requested.Some? ==> requested.value == old(offset) + Limit
      ensures requested.Some? && reply.Some? ==>
                && employees == reply.value.data && total == reply.value.total
                && offset == old(offset) + Limit && error.None? && !loading
      ensures requested.Some? && reply.None? ==>
                && employees == old(employees) && total == old(total)
                && offset == old(offset) && error == Some(LoadFailed) && !loading
    {
      var nextOffset := offset + Limit;
      if nextOffset < total {
        Fetch(nextOffset, reply);
        return Some(nextOffset);
      }
      return None;
    }

    /** handlePrevious: fetches the previous offset only while it is not
        negative, and returns the offset it asked for. */
    method HandlePrevious(reply: Option<EmployeePage>) returns (requested: Option<int>)
      requires Valid()
      modifies this
      ensures Valid()
      ensures requested.Some? <==> !old(PreviousDisabled(offset))
      ensures requested.None? ==> unchanged(this)
      ensures requested.Some? ==> requested.value == old(offset) - Limit
      ensures requested.Some? && reply.Some? ==>
                && employees == reply.value.data && total == reply.value.total
                && offset == old(offset) - Limit && error.None? && !loading
      ensures requested.Some? && reply.None? ==>
                && employees == old(employees) && total == old(total)
                && offset == old(offset) && error == Some(LoadFailed) && !loading
    {
      var prevOffset := offset - Limit;
      if prevOffset >= 0 {
        Fetch(prevOffset, reply);
        return Some(prevOffset);
      }
      return None;
    }
  }
}
