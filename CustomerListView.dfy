/** The customer list of the front end (components/CustomerList.jsx): the
    page shown and the page count, both taken from the server's reply,
    moved one page at a time by Next and Previous and refreshed after an
    update or a delete. The replies are parameters: `None` when a request
    fails, otherwise the body getCustomers answers. */
module CustomerListView {
  import opened Common
  import opened JsText
  import opened Tables
  import opened Records
  import opened CustomerController

  /** The page count as the page compares it with `<`: null converts to 0. */
  function PagesAsNumber(totalPages: Option<nat>): int
  {
    if totalPages.Some? then totalPages.value else 0
  }

  /** handleNext fetches only when `currentPage < totalPages`. */
  predicate NextFetches(currentPage: int, totalPages: Option<nat>)
  {
    currentPage < PagesAsNumber(totalPages)
  }

  /** handlePrevious fetches only when `currentPage > 1`. */
  predicate PreviousFetches(currentPage: int)
  {
    currentPage > 1
  }

  /** The Next button: `disabled={currentPage === totalPages}`, a strict
      comparison that a null page count never meets. */
  predicate NextDisabled(currentPage: int, totalPages: Option<nat>)
  {
    totalPages == Some(currentPage)
  }

  /** The Previous button: `disabled={currentPage === 1}`. */
  predicate PreviousDisabled(currentPage: int)
  {
    currentPage == 1
  }

  /** A disabled Next would not fetch; while the page lies within the page
      count the enabled Next does fetch. With no customers the count is 0:
      the button on page 1 is enabled but does nothing. */
  lemma NextButtonAgreesWithGuard(currentPage: int, totalPages: Option<nat>)
    ensures NextDisabled(currentPage, totalPages) ==> !NextFetches(currentPage, totalPages)
    ensures totalPages.Some? && currentPage <= totalPages.value ==>
              (NextFetches(currentPage, totalPages) <==> !NextDisabled(currentPage, totalPages))
    ensures currentPage == 1 && totalPages == Some(0) ==>
              !NextDisabled(currentPage, totalPages) && !NextFetches(currentPage, totalPages)
  {
  }

  /** From page 1 on, Previous is enabled exactly when it fetches. */
  lemma PreviousButtonAgreesWithGuard(currentPage: int)
    requires currentPage >= 1
    ensures PreviousFetches(currentPage) <==> !PreviousDisabled(currentPage)
  {
  }

  /** `?page=${page}`. */
  function Query(page: nat): Fields
  {
    map["page" := NatText(page)]
  }

  lemma QueryKeysDistinct()
    ensures "page" != "limit" && "page" != "custId"
  {
    assert "page"[0] == 'p' && "limit"[0] == 'l' && "custId"[0] == 'c';
  }

  /** A query naming only a page is read with the default limit of ten. */
  lemma PageOnlyRequest(query: Fields, page: nat)
    requires "page" in query && query["page"] == NatText(page) && "limit" !in query
    ensures page >= 1 ==> ReadPageRequest(query) == Some(PageRequest(page, 10, (page - 1) * 10))
    ensures page == 0 ==> ReadPageRequest(query).None?
  {
    NatTextRoundTrip(page);
    PageRequestOfValues(query, page, 10);
  }

  /** getCustomers reads a page from 1 on back as that page of ten, from the
      offset that skips the pages before it, with no id filter and a page
      count over ten rows a page; page 0 fails on its negative offset. */
  lemma ServerReadsQuery(page: nat)
    ensures page >= 1 ==> ReadPageRequest(Query(page)) == Some(PageRequest(page, 10, (page - 1) * 10))
    ensures page == 0 ==> ReadPageRequest(Query(page)).None?
    ensures Filter(Query(page), "custId").None?
    ensures NumParam(Query(page), "limit", 10) == Some(10)
  {
    var query := Query(page);
    QueryKeysDistinct();
    PageOnlyRequest(query, page);
  }

  const LoadFailed: string := "Failed to load customers."

  class CustomerListView {
    var customers: seq<Customer>
    var totalPages: Option<nat>
    var currentPage: int
    var loading: bool
    var error: Option<string>
    /** The key of the customer whose detail or update form is open. */
    var selected: Option<int>
    /** `'view'` or `'update'`. */
    var mode: Option<string>

    constructor ()
      ensures customers == [] && totalPages == Some(1) && currentPage == 1 && loading && error.None?
      ensures selected.None? && mode.None?
    {
      customers, totalPages, currentPage, loading, error := [], Some(1), 1, true, None;
      selected, mode := None, None;
    }

    /** fetchCustomers: on a reply the rows, the page count and the page are
        taken from it and the error cleared; on a failure only the error
        changes. */
    method Fetch(page: int, reply: Option<CustomerPage>)
      modifies this`customers, this`totalPages, this`currentPage, this`loading, this`error
      ensures reply.Some? ==>
                && customers == reply.value.data && totalPages == reply.value.totalPages
                && currentPage == reply.value.currentPage && error.None?
      ensures reply.None? ==>
                && customers == old(customers) && totalPages == old(totalPages)
                && currentPage == old(currentPage) && error == Some(LoadFailed)
      ensures !loading
    {
      loading := true;
      if reply.Some? {
        customers := reply.value.data;
        totalPages := reply.value.totalPages;
        currentPage := reply.value.currentPage;
        error := None;
      } else {
        error := Some(LoadFailed);
      }
      loading := false;
    }

    /** handleNext: asks for the next page only while the page count is
        ahead of the current page. */
    method HandleNext(reply: Option<CustomerPage>) returns (requested: Option<int>)
      modifies this
      ensures requested.Some? <==> old(NextFetches(currentPage, totalPages))
      ensures requested.Some? ==> requested.value == old(currentPage) + 1
      ensures requested.Some? ==> selected == old(selected) && mode == old(mode)
      ensures requested.None? ==> unchanged(this)
      ensures requested.Some? && reply.Some? ==>
                && customers == reply.value.data && totalPages == reply.value.totalPages
                && currentPage == reply.value.currentPage && error.None? && !loading
      ensures requested.Some? && reply.None? ==>
                && customers == old(customers) && totalPages == old(totalPages)
                && currentPage == old(currentPage) && error == Some(LoadFailed) && !loading
    {
      if currentPage < PagesAsNumber(totalPages) {
        var page := currentPage + 1;
        Fetch(page, reply);
        return Some(page);
      }
      return None;
    }

    /** handlePrevious: asks for the previous page only past page 1. */
    method HandlePrevious(reply: Option<CustomerPage>) returns (requested: Option<int>)
      modifies this
      ensures requested.Some? <==> old(PreviousFetches(currentPage))
      ensures requested.Some? ==> requested.value == old(currentPage) - 1
      ensures requested.Some? ==> selected == old(selected) && mode == old(mode)
      ensures requested.None? ==> unchanged(this)
      ensures requested.Some? && reply.Some? ==>
                && customers == reply.value.data && totalPages == reply.value.totalPages
                && currentPage == reply.value.currentPage && error.None? && !loading
      ensures requested.Some? && reply.None? ==>
                && customers == old(customers) && totalPages == old(totalPages)
                && currentPage == old(currentPage) && error == Some(LoadFailed) && !loading
    {
      if currentPage > 1 {
        var page := currentPage - 1;
        Fetch(page, reply);
        return Some(page);
      }
      return None;
    }

    /** handleUpdateCustomer: the update goes to the selected customer; once
        it succeeds the selection and mode are cleared and the same page is
        fetched again. Without a selection the request cannot be built and
        it fails like a refused update: nothing changes. */
    method HandleUpdate(updated: bool, reply: Option<CustomerPage>) returns (requested: Option<int>)
      modifies this
      ensures requested.Some? <==> old(selected).Some? && updated
      ensures requested.Some? ==> requested.value == old(currentPage) && selected.None? && mode.None?
      ensures requested.None? ==> unchanged(this)
      ensures requested.Some? && reply.Some? ==>
                && customers == reply.value.data && totalPages == reply.value.totalPages
                && currentPage == reply.value.currentPage && error.None? && !loading
      ensures requested.Some? && reply.None? ==>
                && customers == old(customers) && totalPages == old(totalPages)
                && currentPage == old(currentPage) && error == Some(LoadFailed) && !loading
    {
      if selected.None? || !updated {
        return None;
      }
      selected := None;
      mode := None;
      var page := currentPage;
      Fetch(page, reply);
      return Some(page);
    }

    /** handleDeleteCustomer: nothing happens unless the user confirms;
        once the delete succeeds the same page is fetched again. */
    method HandleDelete(confirmed: bool, deleted: bool, reply: Option<CustomerPage>) returns (requested: Option<int>)
      modifies this
      ensures requested.Some? <==> confirmed && deleted
      ensures requested.Some? ==> requested.value == old(currentPage)
      ensures requested.None? ==> unchanged(this)
      ensures requested.Some? ==> selected == old(selected) && mode == old(mode)
      ensures requested.Some? && reply.Some? ==>
                && customers == reply.value.data && totalPages == reply.value.totalPages
                && currentPage == reply.value.currentPage && error.None? && !loading
      ensures requested.Some? && reply.None? ==>
                && customers == old(customers) && totalPages == old(totalPages)
                && currentPage == old(currentPage) && error == Some(LoadFailed) && !loading
    {
      if !confirmed || !deleted {
        return None;
      }
      var page := currentPage;
      Fetch(page, reply);
      return Some(page);
    }
  }
}
