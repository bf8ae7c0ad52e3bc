/**
 * The "Review Analyzed Emails" view (frontend/src/pages/EmailReview.tsx).
 * Its React state is the class EmailReviewView; each handler is a method
 * that receives the outcome of its backend call as a parameter and
 * returns the call it makes and the toast it shows. The filter effect,
 * the sensitivity colours and the tag column are pure functions.
 */
module EmailReviewPage {
  import opened Wrappers
  import opened EmailModels
  import opened Ui
  import Selection

  // ---------------------------------------------------------------------
  // Filters
  // ---------------------------------------------------------------------

  /** The three select boxes above the table; "" stands for "All". */
  datatype ReviewFilters = ReviewFilters(department: string, sensitivity: string, isPrivate: string)

  /** The `name` attributes of the three select boxes. */
  datatype ReviewFilterField = DepartmentField | SensitivityField | IsPrivateField

  /** `setFilters(prev => ({ ...prev, [name]: value }))`: only the named
      select box changes. */
  function SetFilterField(f: ReviewFilters, field: ReviewFilterField, value: string): (g: ReviewFilters)
    ensures g.department == (if field == DepartmentField then value else f.department)
    ensures g.sensitivity == (if field == SensitivityField then value else f.sensitivity)
    ensures g.isPrivate == (if field == IsPrivateField then value else f.isPrivate)
  {
    match field
    case DepartmentField => f.(department := value)
    case SensitivityField => f.(sensitivity := value)
    case IsPrivateField => f.(isPrivate := value)
  }

  /** A review passes every select box that is set. */
  predicate MatchesFilters(r: EmailReview, f: ReviewFilters) {
    && (f.department == "" || r.analysis.department.Name() == f.department)
    && (f.sensitivity == "" || r.analysis.sensitivity.Name() == f.sensitivity)
    && (f.isPrivate == "" || r.analysis.isPrivate == (f.isPrivate == "true"))
  }

  /** The filter effect: the department, sensitivity and privacy filters
      applied one after the other, each only when its select box is set,
      keep in order the reviews that pass every set box. */
  function ApplyFilters(reviews: seq<EmailReview>, f: ReviewFilters): (r: seq<EmailReview>)
    ensures |r| <= |reviews|
    ensures forall i :: 0 <= i < |r| ==> MatchesFilters(r[i], f)
  {
    if reviews == [] then []
    else (if MatchesFilters(reviews[0], f) then [reviews[0]] else []) + ApplyFilters(reviews[1..], f)
  }

  /** The table shows every matching review as often as it was fetched and
      nothing else. */
  lemma {:induction false} ApplyFiltersSelects(reviews: seq<EmailReview>, f: ReviewFilters, x: EmailReview)
    ensures multiset(ApplyFilters(reviews, f))[x] == if MatchesFilters(x, f) then multiset(reviews)[x] else 0
    ensures x in ApplyFilters(reviews, f) <==> x in reviews && MatchesFilters(x, f)
  {
    if reviews != [] {
      var head := if MatchesFilters(reviews[0], f) then [reviews[0]] else [];
      assert multiset(reviews) == multiset([reviews[0]]) + multiset(reviews[1..]) by {
        assert reviews == [reviews[0]] + reviews[1..];
      }
      assert multiset(ApplyFilters(reviews, f)) == multiset(head) + multiset(ApplyFilters(reviews[1..], f));
      ApplyFiltersSelects(reviews[1..], f, x);
    }
  }

  /** The filters keep the fetched order: filtering a concatenation
      filters each part, and one review is kept exactly when it passes. */
  lemma {:induction false} ApplyFiltersConcat(a: seq<EmailReview>, b: seq<EmailReview>, f: ReviewFilters)
    ensures ApplyFilters(a + b, f) == ApplyFilters(a, f) + ApplyFilters(b, f)
    ensures forall x :: ApplyFilters([x], f) == if MatchesFilters(x, f) then [x] else []
  {
    forall x ensures ApplyFilters([x], f) == if MatchesFilters(x, f) then [x] else [] {
      assert [x][1..] == [];
    }
    if a == [] {
      assert a + b == b;
    } else {
      var head := if MatchesFilters(a[0], f) then [a[0]] else [];
      assert (a + b)[0] == a[0];
      assert (a + b)[1..] == a[1..] + b;
      ApplyFiltersConcat(a[1..], b, f);
      ConcatAssoc(head, ApplyFilters(a[1..], f), ApplyFilters(b, f));
    }
  }

  /** With every select box on "All" the table shows the fetched list. */
  lemma {:induction false} ApplyNoFilters(reviews: seq<EmailReview>)
    ensures ApplyFilters(reviews, ReviewFilters("", "", "")) == reviews
  {
    if reviews != [] {
      ApplyNoFilters(reviews[1..]);
    }
  }

  // ---------------------------------------------------------------------
  // Decisions
  // ---------------------------------------------------------------------

  /** The local update a successful decision applies to one review. */
  function Decided(r: EmailReview, approved: bool, notes: string, now: string): (d: EmailReview)
    ensures d.status == DecisionStatus(approved) && d.reviewedAt == Some(now) && d.reviewNotes == Some(notes)
    ensures d.emailId == r.emailId && d.content == r.content && d.analysis == r.analysis
    ensures d.reviewerId == r.reviewerId
  {
    r.(status := DecisionStatus(approved), reviewedAt := Some(now), reviewNotes := Some(notes))
  }

  /** `prev.map(review => ids.includes(review.email_id) ? decided : review)`:
      the reviews whose id is listed take the decision, every other review
      is left as it was, and the list keeps its length and order. */
  function DecideListed(reviews: seq<EmailReview>, ids: seq<string>, approved: bool, notes: string, now: string)
    : (r: seq<EmailReview>)
    ensures |r| == |reviews|
    ensures forall i :: 0 <= i < |r| ==> r[i].emailId == reviews[i].emailId && r[i].analysis == reviews[i].analysis
    ensures forall i :: 0 <= i < |r| && reviews[i].emailId in ids ==>
      r[i].status == DecisionStatus(approved) && r[i].reviewNotes == Some(notes) && r[i].reviewedAt == Some(now)
      && r[i].content == reviews[i].content && r[i].reviewerId == reviews[i].reviewerId
    ensures forall i :: 0 <= i < |r| && reviews[i].emailId !in ids ==> r[i] == reviews[i]
  {
    if reviews == [] then []
    else
      var head := if reviews[0].emailId in ids then Decided(reviews[0], approved, notes, now) else reviews[0];
      var rest := DecideListed(reviews[1..], ids, approved, notes, now);
      assert forall i :: 1 <= i < |reviews| ==> ([head] + rest)[i] == rest[i - 1] && reviews[i] == reviews[1..][i - 1];
      [head] + rest
  }

  /** Deciding one review whose id is unique in the list changes exactly
      that review: one entry now carries the decision, the others are
      untouched. */
  lemma DecideOneUnique(reviews: seq<EmailReview>, k: nat, approved: bool, notes: string, now: string)
    requires k < |reviews|
    requires forall i :: 0 <= i < |reviews| && i != k ==> reviews[i].emailId != reviews[k].emailId
    ensures var r := DecideListed(reviews, [reviews[k].emailId], approved, notes, now);
      && r[k] == Decided(reviews[k], approved, notes, now)
      && (forall i :: 0 <= i < |r| && i != k ==> r[i] == reviews[i])
  {
    var r := DecideListed(reviews, [reviews[k].emailId], approved, notes, now);
    assert reviews[k].emailId in [reviews[k].emailId];
    forall i | 0 <= i < |r| && i != k ensures r[i] == reviews[i] {
      assert reviews[i].emailId !in [reviews[k].emailId];
    }
  }

  /** A call the view makes to the review backend. */
  datatype ReviewCall =
    | DecideOne(emailId: string, approval: EmailApproval)
    | DecideBulk(emailIds: seq<string>, approval: EmailApproval)

  // ---------------------------------------------------------------------
  // Table cells
  // ---------------------------------------------------------------------

  /** The badge colour of a sensitivity level; any other value is gray. */
  function SensitivityColor(sensitivity: string): (c: string)
    ensures ParseSensitivity(sensitivity) == Some(Low) ==> c == "green"
    ensures ParseSensitivity(sensitivity) == Some(Medium) ==> c == "blue"
    ensures ParseSensitivity(sensitivity) == Some(High) ==> c == "orange"
    ensures ParseSensitivity(sensitivity) == Some(Critical) ==> c == "red"
    ensures c == "gray" <==> ParseSensitivity(sensitivity).None?
  {
    match sensitivity
    case "low" => "green"
    case "medium" => "blue"
    case "high" => "orange"
    case "critical" => "red"
    case _ => "gray"
  }

  /** Distinct levels get distinct colours. */
  lemma SensitivityColorsDistinct(a: SensitivityLevel, b: SensitivityLevel)
    ensures a != b ==> SensitivityColor(a.Name()) != SensitivityColor(b.Name())
    ensures SensitivityColor(a.Name()) != "gray"
  {
  }

  /** What the Tags column renders: at most the first two tags, then a
      "+n" badge for the n tags left out, only when there are any. */
  datatype TagCell = TagCell(shown: seq<string>, badge: Option<string>)

  function TagsCell(tags: seq<string>): (c: TagCell)
    ensures |c.shown| == (if |tags| < 2 then |tags| else 2) && c.shown == tags[..|c.shown|]
    ensures c.badge.Some? <==> |tags| > 2
    ensures c.badge.Some? ==> c.badge.value == "+" + NatToString(|tags| - |c.shown|)
  {
    var shown := if |tags| < 2 then tags else tags[..2];
    TagCell(shown, if |tags| > 2 then Some("+" + NatToString(|tags| - 2)) else None)
  }

  /** Every tag is either shown or counted by the badge, and the badge
      never reads "+0". */
  lemma TagsAccountedFor(tags: seq<string>)
    ensures var c := TagsCell(tags);
      |c.shown| + (if c.badge.Some? then DigitsValue(c.badge.value[1..]) else 0) == |tags|
    ensures var c := TagsCell(tags); c.badge.Some? ==> c.badge.value[1..] != "0"
  {
    var c := TagsCell(tags);
    if |tags| > 2 {
      assert c.badge.value[1..] == NatToString(|tags| - 2);
      NatToStringRoundTrip(|tags| - 2);
    }
  }

  /** The ids of a list, in display order. */
  function EmailIds(reviews: seq<EmailReview>): (ids: seq<string>)
    ensures |ids| == |reviews|
    ensures forall i :: 0 <= i < |ids| ==> ids[i] == reviews[i].emailId
  {
    if reviews == [] then [] else [reviews[0].emailId] + EmailIds(reviews[1..])
  }

  // ---------------------------------------------------------------------
  // The view
  // ---------------------------------------------------------------------

  class EmailReviewView {
    var reviews: seq<EmailReview>
    var filteredReviews: seq<EmailReview>
    var selectedReviews: seq<string>
    var currentReview: Option<EmailReview>
    var approvalNotes: string
    var isLoading: bool
    var isSubmitting: bool
    var filters: ReviewFilters
    /** The detail drawer (`useDisclosure().isOpen`). */
    var drawerOpen: bool

    /** Once the filter effect has run, the table shows the projection of
        the fetched list through the select boxes. */
    ghost predicate Valid()
      reads this
    {
      filteredReviews == ApplyFilters(reviews, filters)
    }

    constructor ()
      ensures Valid()
      ensures reviews == [] && filteredReviews == [] && selectedReviews == []
      ensures currentReview == None && approvalNotes == "" && !isLoading && !isSubmitting
      ensures filters == ReviewFilters("", "", "") && !drawerOpen
    {
      reviews := [];
      filteredReviews := [];
      selectedReviews := [];
      currentReview := None;
      approvalNotes := "";
      isLoading := false;
      isSubmitting := false;
      filters := ReviewFilters("", "", "");
      drawerOpen := false;
    }

    /** The effect that re-filters whenever the fetched list or a select
        box changes; it never touches the fetched list. */
    method RunFilterEffect()
      modifies this`filteredReviews
      ensures filteredReviews == ApplyFilters(reviews, filters)
      ensures Valid()
    {
      filteredReviews := ApplyFilters(reviews, filters);
    }

    /** `loadReviews` on mount: a successful fetch replaces the list, a
        failed one shows an error toast and keeps it. */
    method LoadReviews(outcome: Outcome<seq<EmailReview>>) returns (toast: Option<ToastStatus>)
      modifies this`reviews, this`filteredReviews, this`isLoading
      ensures Valid() && !isLoading
      ensures outcome.Succeeded? ==> reviews == outcome.data && toast == None
      ensures outcome.Failed? ==> reviews == old(reviews) && toast == Some(Error)
    {
      isLoading := true;
      toast := None;
      match outcome {
        case Succeeded(data) =>
          reviews := data;
          filteredReviews := data;
        case Failed =>
          toast := Some(Error);
      }
      isLoading := false;
      RunFilterEffect();
    }

    method HandleFilterChange(field: ReviewFilterField, value: string)
      modifies this`filters, this`filteredReviews
      ensures filters == SetFilterField(old(filters), field, value)
      ensures Valid()
    {
      filters := SetFilterField(filters, field, value);
      RunFilterEffect();
    }

    method ToggleReviewSelection(emailId: string)
      modifies this`selectedReviews
      ensures selectedReviews == Selection.Toggle(old(selectedReviews), emailId)
    {
      selectedReviews := Selection.Toggle(selectedReviews, emailId);
    }

    /** "Select All" / "Deselect All" over the displayed (filtered) rows. */
    method SelectAllReviews()
      modifies this`selectedReviews
      ensures selectedReviews == Selection.SelectAll(old(selectedReviews), EmailIds(filteredReviews))
    {
      if |selectedReviews| == |filteredReviews| {
        selectedReviews := [];
      } else {
        selectedReviews := EmailIds(filteredReviews);
      }
    }

    method OpenReviewDetails(review: EmailReview)
      modifies this`currentReview, this`drawerOpen
      ensures currentReview == Some(review) && drawerOpen
    {
      currentReview := Some(review);
      drawerOpen := true;
    }

    /** Approve or reject one review. The call always goes out with the
        current notes; only on success is the list updated, the id
        deselected, the notes cleared and the drawer closed (when it shows
        that id). On failure nothing but the submitting flag changes. */
    method HandleReviewDecision(emailId: string, approved: bool, outcome: Outcome<()>, now: string)
      returns (call: ReviewCall, toast: ToastStatus)
      requires Valid()
      modifies this`reviews, this`filteredReviews, this`selectedReviews, this`approvalNotes,
        this`currentReview, this`drawerOpen, this`isSubmitting
      ensures Valid() && !isSubmitting
      ensures call == DecideOne(emailId, EmailApproval(approved, Some(old(approvalNotes))))
      ensures outcome.Succeeded? ==>
        && reviews == DecideListed(old(reviews), [emailId], approved, old(approvalNotes), now)
        && selectedReviews == RemoveAll(old(selectedReviews), emailId)
        && approvalNotes == ""
        && toast == (if approved then Success else Info)
      ensures outcome.Succeeded? && old(currentReview).Some? && old(currentReview).value.emailId == emailId ==>
        currentReview == None && !drawerOpen
      ensures outcome.Succeeded? && !(old(currentReview).Some? && old(currentReview).value.emailId == emailId) ==>
        currentReview == old(currentReview) && drawerOpen == old(drawerOpen)
      ensures outcome.Failed? ==>
        && reviews == old(reviews) && filteredReviews == old(filteredReviews)
        && selectedReviews == old(selectedReviews) && approvalNotes == old(approvalNotes)
        && currentReview == old(currentReview) && drawerOpen == old(drawerOpen)
        && toast == Error
    {
      isSubmitting := true;
      call := DecideOne(emailId, EmailApproval(approved, Some(approvalNotes)));
      match outcome {
        case Succeeded(_) =>
          reviews := DecideListed(reviews, [emailId], approved, approvalNotes, now);
          toast := if approved then Success else Info;
          if currentReview.Some? && currentReview.value.emailId == emailId {
            drawerOpen := false;
            currentReview := None;
          }
          selectedReviews := RemoveAll(selectedReviews, emailId);
          approvalNotes := "";
          RunFilterEffect();
        case Failed =>
          toast := Error;
      }
      isSubmitting := false;
    }

    /** Approve or reject every selected review with one call. With an
        empty selection it only warns: no call, no state change. */
    method HandleBulkDecision(approved: bool, outcome: Outcome<()>, now: string)
      returns (call: Option<ReviewCall>, toast: ToastStatus)
      requires Valid()
      modifies this`reviews, this`filteredReviews, this`selectedReviews, this`approvalNotes, this`isSubmitting
      ensures Valid()
      ensures old(selectedReviews) == [] ==>
        && call == None && toast == Warning
        && reviews == old(reviews) && filteredReviews == old(filteredReviews)
        && selectedReviews == old(selectedReviews) && approvalNotes == old(approvalNotes)
        && isSubmitting == old(isSubmitting)
      ensures old(selectedReviews) != [] ==>
        && call == Some(DecideBulk(old(selectedReviews), EmailApproval(approved, Some(old(approvalNotes)))))
        && !isSubmitting
      ensures old(selectedReviews) != [] && outcome.Succeeded? ==>
        && reviews == DecideListed(old(reviews), old(selectedReviews), approved, old(approvalNotes), now)
        && selectedReviews == [] && approvalNotes == ""
        && toast == (if approved then Success else Info)
      ensures old(selectedReviews) != [] && outcome.Failed? ==>
        && reviews == old(reviews) && filteredReviews == old(filteredReviews)
        && selectedReviews == old(selectedReviews) && approvalNotes == old(approvalNotes)
        && toast == Error
    {
      if |selectedReviews| == 0 {
        call := None;
        toast := Warning;
        return;
      }
      isSubmitting := true;
      call := Some(DecideBulk(selectedReviews, EmailApproval(approved, Some(approvalNotes))));
      match outcome {
        case Succeeded(_) =>
          reviews := DecideListed(reviews, selectedReviews, approved, approvalNotes, now);
          toast := if approved then Success else Info;
          selectedReviews := [];
          approvalNotes := "";
          RunFilterEffect();
        case Failed =>
          toast := Error;
      }
      isSubmitting := false;
    }
  }

  /** Two reviews with the same email id are decided alike: the code never
      looks at an item's prior status, so a decided review can be decided
      again and its status overwritten. */
  lemma RedecisionOverwrites(reviews: seq<EmailReview>, id: string, first: bool, second: bool,
                             notes1: string, notes2: string, now1: string, now2: string)
    ensures var once := DecideListed(reviews, [id], first, notes1, now1);
      var twice := DecideListed(once, [id], second, notes2, now2);
      forall i :: 0 <= i < |twice| && reviews[i].emailId == id ==>
        twice[i] == Decided(reviews[i], second, notes2, now2)
  {
    var once := DecideListed(reviews, [id], first, notes1, now1);
    var twice := DecideListed(once, [id], second, notes2, now2);
    forall i | 0 <= i < |twice| && reviews[i].emailId == id
      ensures twice[i] == Decided(reviews[i], second, notes2, now2)
    {
      assert id in [id];
      assert once[i].emailId == id;
    }
  }
}
