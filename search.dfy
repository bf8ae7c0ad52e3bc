/**
 * The "Search Knowledge Base" view (frontend/src/pages/Search.tsx). Its
 * React state is the class SearchView. A search and the opening of an
 * item are each split at the awaited call: a `Start` method for what
 * happens before it, a `Finish` method for what happens after, and a
 * handler that runs the two around the outcome it is given.
 */
module SearchPage {
  import opened Wrappers
  import opened Ui

  /** One hit of the knowledge base; the score is only displayed. */
  datatype SearchResult = SearchResult(
    id: string, subject: string, sender: string, date: string, snippet: string,
    score: real, tags: seq<string>, department: string)

  datatype SearchResponse = SearchResponse(results: seq<SearchResult>, total: int)

  /** The full content of a knowledge item, as the modal shows it. */
  datatype KnowledgeItem = KnowledgeItem(
    id: string, subject: string, sender: string, senderEmail: string, recipients: seq<string>,
    date: string, body: string, tags: seq<string>, department: string, extractedDate: string,
    source: string)

  /** A query the search button refuses: nothing but whitespace. */
  predicate BlankQuery(query: string) {
    Trim(query) == ""
  }

  class SearchView {
    var searchQuery: string
    var results: seq<SearchResult>
    var totalResults: int
    var isSearching: bool
    var selectedItem: Option<KnowledgeItem>
    var isLoadingItem: bool
    /** The item modal (`useDisclosure().isOpen`). */
    var modalOpen: bool

    constructor ()
      ensures searchQuery == "" && results == [] && totalResults == 0 && !isSearching
      ensures selectedItem == None && !isLoadingItem && !modalOpen
    {
      searchQuery := "";
      results := [];
      totalResults := 0;
      isSearching := false;
      selectedItem := None;
      isLoadingItem := false;
      modalOpen := false;
    }

    method SetSearchQuery(value: string)
      modifies this`searchQuery
      ensures searchQuery == value
    {
      searchQuery := value;
    }

    /** `handleSearch` up to the call. A blank query only warns and makes
        no call; any other query empties the results, shows the spinner
        and is sent as typed, untrimmed. The total is left alone. */
    method StartSearch() returns (call: Option<string>, toast: Option<ToastStatus>)
      modifies this`results, this`isSearching
      ensures BlankQuery(searchQuery) ==>
        call == None && toast == Some(Warning) && results == old(results) && isSearching == old(isSearching)
      ensures !BlankQuery(searchQuery) ==>
        call == Some(searchQuery) && toast == None && results == [] && isSearching
    {
      if Trim(searchQuery) == "" {
        call := None;
        toast := Some(Warning);
        return;
      }
      isSearching := true;
      results := [];
      call := Some(searchQuery);
      toast := None;
    }

    /** `handleSearch` after the call: a response replaces the results and
        the total; a failure shows an error and keeps both. */
    method FinishSearch(outcome: Outcome<SearchResponse>) returns (toast: Option<ToastStatus>)
      modifies this`results, this`totalResults, this`isSearching
      ensures !isSearching
      ensures outcome.Succeeded? ==>
        results == outcome.data.results && totalResults == outcome.data.total && toast == None
      ensures outcome.Failed? ==>
        results == old(results) && totalResults == old(totalResults) && toast == Some(Error)
    {
      toast := None;
      match outcome {
        case Succeeded(response) =>
          results := response.results;
          totalResults := response.total;
        case Failed =>
          toast := Some(Error);
      }
      isSearching := false;
    }

    /** The search button. A blank query changes nothing. Otherwise the
        outcome's results and total are shown on success; on failure the
        results stay empty while the total of the previous search is still
        displayed. */
    method HandleSearch(outcome: Outcome<SearchResponse>) returns (call: Option<string>, toast: Option<ToastStatus>)
      modifies this`results, this`totalResults, this`isSearching
      ensures BlankQuery(searchQuery) ==>
        && call == None && toast == Some(Warning)
        && results == old(results) && totalResults == old(totalResults) && isSearching == old(isSearching)
      ensures !BlankQuery(searchQuery) ==> call == Some(searchQuery) && !isSearching
      ensures !BlankQuery(searchQuery) && outcome.Succeeded? ==>
        results == outcome.data.results && totalResults == outcome.data.total && toast == None
      ensures !BlankQuery(searchQuery) && outcome.Failed? ==>
        results == [] && totalResults == old(totalResults) && toast == Some(Error)
    {
      call, toast := StartSearch();
      if call.Some? {
        toast := FinishSearch(outcome);
      }
    }

    /** `handleViewItem` up to the call: the previous item is dropped. */
    method StartViewItem(id: string) returns (call: string)
      modifies this`selectedItem, this`isLoadingItem
      ensures call == id && selectedItem == None && isLoadingItem
    {
      isLoadingItem := true;
      selectedItem := None;
      call := id;
    }

    /** `handleViewItem` after the call: the item is shown in the opened
        modal on success; on failure there is no item and the modal is
        left as it was. */
    method FinishViewItem(outcome: Outcome<KnowledgeItem>) returns (toast: Option<ToastStatus>)
      modifies this`selectedItem, this`isLoadingItem, this`modalOpen
      ensures !isLoadingItem
      ensures outcome.Succeeded? ==> selectedItem == Some(outcome.data) && modalOpen && toast == None
      ensures outcome.Failed? ==>
        selectedItem == old(selectedItem) && modalOpen == old(modalOpen) && toast == Some(Error)
    {
      toast := None;
      match outcome {
        case Succeeded(content) =>
          selectedItem := Some(content);
          modalOpen := true;
        case Failed =>
          toast := Some(Error);
      }
      isLoadingItem := false;
    }

    /** The view button of a result row. */
    method HandleViewItem(id: string, outcome: Outcome<KnowledgeItem>)
      returns (call: string, toast: Option<ToastStatus>)
      modifies this`selectedItem, this`isLoadingItem, this`modalOpen
      ensures call == id && !isLoadingItem
      ensures outcome.Succeeded? ==> selectedItem == Some(outcome.data) && modalOpen && toast == None
      ensures outcome.Failed? ==> selectedItem == None && modalOpen == old(modalOpen) && toast == Some(Error)
    {
      call := StartViewItem(id);
      toast := FinishViewItem(outcome);
    }

    /** The modal's close button. */
    method CloseItem()
      modifies this`modalOpen
      ensures !modalOpen
    {
      modalOpen := false;
    }
  }
}
