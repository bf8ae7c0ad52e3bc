/**
 * The "Select Emails to Analyze" view (frontend/src/pages/FilterSetup.tsx).
 * Its React state is the class FilterSetupView; each handler is a method
 * that receives the outcome of its backend call as a parameter and
 * returns the call it makes and the toast it shows. The folder list the
 * view loads on mount only feeds a select box and is not modelled.
 */
module FilterSetupPage {
  import opened Wrappers
  import opened EmailModels
  import opened Ui
  import Selection

  // ---------------------------------------------------------------------
  // The filter form
  // ---------------------------------------------------------------------

  /** The `name` attributes of the form's inputs. */
  datatype FilterField = FolderIdField | SenderField | StartDateField | EndDateField

  /** The form's initial filter: an empty folder and an empty keyword
      list; the sender and the dates are not set at all. */
  const InitialFilter: EmailFilter := EmailFilter(Some(""), None, None, Some([]), None)

  /** `setFilter(prev => ({ ...prev, [name]: value }))`: the named input
      is set, every other field of the filter is kept. */
  function SetField(f: EmailFilter, field: FilterField, value: string): (g: EmailFilter)
    ensures g.folderId == (if field == FolderIdField then Some(value) else f.folderId)
    ensures g.sender == (if field == SenderField then Some(value) else f.sender)
    ensures g.startDate == (if field == StartDateField then Some(value) else f.startDate)
    ensures g.endDate == (if field == EndDateField then Some(value) else f.endDate)
    ensures g.keywords == f.keywords
  {
    match field
    case FolderIdField => f.(folderId := Some(value))
    case SenderField => f.(sender := Some(value))
    case StartDateField => f.(startDate := Some(value))
    case EndDateField => f.(endDate := Some(value))
  }

  /** Whether the add button takes the typed text: its trimmed form must
      be non-empty and not already a keyword. */
  predicate AcceptsKeyword(keywords: seq<string>, input: string) {
    Trim(input) != "" && Trim(input) !in keywords
  }

  /** The keyword list after pressing "add": the trimmed input appended
      at the end when it is accepted, otherwise the list unchanged. */
  function AddKeyword(keywords: seq<string>, input: string): (r: seq<string>)
    ensures AcceptsKeyword(keywords, input) ==> r == keywords + [Trim(input)]
    ensures !AcceptsKeyword(keywords, input) ==> r == keywords
    ensures NoDup(keywords) ==> NoDup(r)
    ensures forall k :: k in r ==> k in keywords || k == Trim(input)
  {
    if AcceptsKeyword(keywords, input) then
      assert NoDup(keywords) ==> NoDup(keywords + [Trim(input)]);
      keywords + [Trim(input)]
    else keywords
  }

  /** Adding the same text twice adds it once. */
  lemma AddKeywordIdempotent(keywords: seq<string>, input: string)
    ensures AddKeyword(AddKeyword(keywords, input), input) == AddKeyword(keywords, input)
  {
    if AcceptsKeyword(keywords, input) {
      assert Trim(input) in keywords + [Trim(input)];
    }
  }

  /** Removing a keyword and typing it again gives back the same keywords,
      that one now at the end, as long as it is non-empty and trimmed. */
  lemma {:induction false} RemoveThenAdd(keywords: seq<string>, k: string)
    requires NoDup(keywords) && k in keywords && k != "" && Trim(k) == k
    ensures multiset(AddKeyword(RemoveAll(keywords, k), k)) == multiset(keywords)
    ensures AddKeyword(RemoveAll(keywords, k), k) == RemoveAll(keywords, k) + [k]
  {
    var rest := RemoveAll(keywords, k);
    assert AcceptsKeyword(rest, k);
    forall y ensures multiset(rest + [k])[y] == multiset(keywords)[y] {
      RemoveAllCount(keywords, k, y);
      if y == k {
        assert multiset(keywords)[k] == 1 by { NoDupCountOne(keywords, k); }
      }
    }
    assert multiset(rest + [k]) == multiset(keywords);
  }

  /** In a duplicate-free sequence a member occurs exactly once. */
  lemma {:induction false} NoDupCountOne(s: seq<string>, x: string)
    requires NoDup(s) && x in s
    ensures multiset(s)[x] == 1
  {
    assert s == [s[0]] + s[1..];
    if s[0] == x {
      assert x !in s[1..] by {
        forall j | 0 <= j < |s[1..]| ensures s[1..][j] != x {
          assert s[1..][j] == s[j + 1];
        }
      }
    } else {
      assert NoDup(s[1..]) by {
        forall i, j | 0 <= i < j < |s[1..]| ensures s[1..][i] != s[1..][j] {
          assert s[1..][i] == s[i + 1] && s[1..][j] == s[j + 1];
        }
      }
      NoDupCountOne(s[1..], x);
    }
  }

  // ---------------------------------------------------------------------
  // The header checkbox of the preview table
  // ---------------------------------------------------------------------

  predicate HeaderChecked(selectedCount: nat, previewCount: nat) {
    selectedCount == previewCount && previewCount > 0
  }

  predicate HeaderIndeterminate(selectedCount: nat, previewCount: nat) {
    selectedCount > 0 && selectedCount < previewCount
  }

  /** The header checkbox is never checked and indeterminate at once; when
      checked, clicking it clears the selection, and when indeterminate,
      clicking it selects every listed email. */
  lemma HeaderCheckboxStates(selected: seq<string>, listed: seq<string>)
    ensures !(HeaderChecked(|selected|, |listed|) && HeaderIndeterminate(|selected|, |listed|))
    ensures HeaderChecked(|selected|, |listed|) ==> Selection.SelectAll(selected, listed) == []
    ensures HeaderIndeterminate(|selected|, |listed|) ==> Selection.SelectAll(selected, listed) == listed
  {
  }

  /** The ids of the previews, in display order. */
  function PreviewIds(previews: seq<EmailPreview>): (ids: seq<string>)
    ensures |ids| == |previews|
    ensures forall i :: 0 <= i < |ids| ==> ids[i] == previews[i].id
  {
    if previews == [] then [] else [previews[0].id] + PreviewIds(previews[1..])
  }

  // ---------------------------------------------------------------------
  // The view
  // ---------------------------------------------------------------------

  class FilterSetupView {
    var filter: EmailFilter
    var keywordInput: string
    var previews: seq<EmailPreview>
    var selectedEmails: seq<string>
    var isLoadingPreviews: bool
    var isSubmitting: bool

    /** The keywords are never repeated. */
    ghost predicate Valid()
      reads this
    {
      NoDup(filter.keywords.GetOr([]))
    }

    constructor ()
      ensures Valid()
      ensures filter == InitialFilter && keywordInput == ""
      ensures previews == [] && selectedEmails == [] && !isLoadingPreviews && !isSubmitting
    {
      filter := InitialFilter;
      keywordInput := "";
      previews := [];
      selectedEmails := [];
      isLoadingPreviews := false;
      isSubmitting := false;
    }

    method HandleFilterChange(field: FilterField, value: string)
      requires Valid()
      modifies this`filter
      ensures filter == SetField(old(filter), field, value)
      ensures Valid()
    {
      filter := SetField(filter, field, value);
    }

    /** Typing into the keyword box. */
    method SetKeywordInput(value: string)
      modifies this`keywordInput
      ensures keywordInput == value
    {
      keywordInput := value;
    }

    /** The add button: the keyword list grows by the trimmed input when it
        is accepted, and only then is the input box cleared. */
    method HandleAddKeyword()
      requires Valid()
      modifies this`filter, this`keywordInput
      ensures Valid()
      ensures AcceptsKeyword(old(filter.keywords).GetOr([]), old(keywordInput)) ==>
        && filter == old(filter).(keywords := Some(AddKeyword(old(filter.keywords).GetOr([]), old(keywordInput))))
        && keywordInput == ""
      ensures !AcceptsKeyword(old(filter.keywords).GetOr([]), old(keywordInput)) ==>
        filter == old(filter) && keywordInput == old(keywordInput)
    {
      var keyword := Trim(keywordInput);
      var keywords := filter.keywords.GetOr([]);
      if keyword != "" && keyword !in keywords {
        filter := filter.(keywords := Some(keywords + [keyword]));
        keywordInput := "";
      }
    }

    /** A keyword's close button: every occurrence goes, the others keep
        their order, and the rest of the filter is untouched. */
    method HandleRemoveKeyword(keyword: string)
      requires Valid()
      modifies this`filter
      ensures Valid()
      ensures filter == old(filter).(keywords := Some(RemoveAll(old(filter.keywords).GetOr([]), keyword)))
      ensures keyword !in filter.keywords.value
    {
      filter := filter.(keywords := Some(RemoveAll(filter.keywords.GetOr([]), keyword)));
    }

    /** The first half of `handlePreviewEmails`, up to the call: the old
        previews and the selection are dropped and the spinner shown. */
    method BeginPreview() returns (request: EmailFilter)
      modifies this`previews, this`selectedEmails, this`isLoadingPreviews
      ensures request == filter
      ensures previews == [] && selectedEmails == [] && isLoadingPreviews
    {
      isLoadingPreviews := true;
      previews := [];
      selectedEmails := [];
      request := filter;
    }

    /** The second half, once the call has ended. */
    method FinishPreview(outcome: Outcome<seq<EmailPreview>>) returns (toast: Option<ToastStatus>)
      modifies this`previews, this`isLoadingPreviews
      ensures !isLoadingPreviews
      ensures outcome.Succeeded? ==> previews == outcome.data && toast == None
      ensures outcome.Failed? ==> previews == old(previews) && toast == Some(Error)
    {
      toast := None;
      match outcome {
        case Succeeded(data) =>
          previews := data;
        case Failed =>
          toast := Some(Error);
      }
      isLoadingPreviews := false;
    }

    /** The preview button: the current filter is sent; the previews are
        the response on success and stay empty on failure; the selection
        is always emptied. */
    method HandlePreviewEmails(outcome: Outcome<seq<EmailPreview>>)
      returns (request: EmailFilter, toast: Option<ToastStatus>)
      modifies this`previews, this`selectedEmails, this`isLoadingPreviews
      ensures request == old(filter)
      ensures selectedEmails == [] && !isLoadingPreviews
      ensures outcome.Succeeded? ==> previews == outcome.data && toast == None
      ensures outcome.Failed? ==> previews == [] && toast == Some(Error)
    {
      request := BeginPreview();
      toast := FinishPreview(outcome);
    }

    method ToggleEmailSelection(emailId: string)
      modifies this`selectedEmails
      ensures selectedEmails == Selection.Toggle(old(selectedEmails), emailId)
    {
      selectedEmails := Selection.Toggle(selectedEmails, emailId);
    }

    /** The header checkbox's action over the listed previews. */
    method SelectAllEmails()
      modifies this`selectedEmails
      ensures selectedEmails == Selection.SelectAll(old(selectedEmails), PreviewIds(previews))
    {
      if |selectedEmails| == |previews| {
        selectedEmails := [];
      } else {
        selectedEmails := PreviewIds(previews);
      }
    }

    /** "Analyze": with nothing selected it only warns; otherwise it sends
        the selected ids and, on success, moves on to the review page. The
        selection is kept either way, so a failed submission can be
        retried. */
    method HandleSubmitForAnalysis(outcome: Outcome<()>)
      returns (call: Option<seq<string>>, toast: ToastStatus, navigateTo: Option<string>)
      modifies this`isSubmitting
      ensures selectedEmails == old(selectedEmails)
      ensures selectedEmails == [] ==>
        call == None && toast == Warning && navigateTo == None && isSubmitting == old(isSubmitting)
      ensures selectedEmails != [] ==> call == Some(selectedEmails) && !isSubmitting
      ensures selectedEmails != [] && outcome.Succeeded? ==> toast == Success && navigateTo == Some("/review")
      ensures selectedEmails != [] && outcome.Failed? ==> toast == Error && navigateTo == None
    {
      if |selectedEmails| == 0 {
        call := None;
        toast := Warning;
        navigateTo := None;
        return;
      }
      isSubmitting := true;
      call := Some(selectedEmails);
      match outcome {
        case Succeeded(_) =>
          toast := Success;
          navigateTo := Some("/review");
        case Failed =>
          toast := Error;
          navigateTo := None;
      }
      isSubmitting := false;
    }
  }
}
