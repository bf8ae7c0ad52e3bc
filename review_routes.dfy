/**
 * The review routes of the backend (backend/app/routes/review.py) over
 * their in-memory `email_reviews` dictionary, modelled as the class
 * ReviewStore: a map from email id to review plus the order in which the
 * ids were inserted, which is the order Python iterates the dictionary
 * in. The current user's id and the time of a decision are parameters.
 */
module ReviewRoutes {
  import opened Wrappers
  import opened EmailModels

  /** An HTTP error response. */
  datatype HttpError = HttpError(statusCode: int, detail: string)

  datatype Response<T> = Ok(value: T) | Err(error: HttpError)

  const ReviewNotFound: HttpError := HttpError(404, "Email review not found")

  // ---------------------------------------------------------------------
  // The pending list
  // ---------------------------------------------------------------------

  /** A review the pending list shows: still pending, and equal to every
      query parameter that is given. */
  predicate PendingMatch(r: EmailReview, department: Option<string>, sensitivity: Option<string>,
                         isPrivate: Option<bool>) {
    && r.status == Pending
    && (department.None? || r.analysis.department.Name() == department.value)
    && (sensitivity.None? || r.analysis.sensitivity.Name() == sensitivity.value)
    && (isPrivate.None? || r.analysis.isPrivate == isPrivate.value)
  }

  /** The list comprehension of `get_pending_reviews`, in store order. */
  function PendingOf(values: seq<EmailReview>, department: Option<string>, sensitivity: Option<string>,
                     isPrivate: Option<bool>): (r: seq<EmailReview>)
    ensures |r| <= |values|
    ensures forall i :: 0 <= i < |r| ==> PendingMatch(r[i], department, sensitivity, isPrivate)
  {
    if values == [] then []
    else
      (if PendingMatch(values[0], department, sensitivity, isPrivate) then [values[0]] else [])
      + PendingOf(values[1..], department, sensitivity, isPrivate)
  }

  /** The pending list holds every stored review that matches, as often as
      it is stored, and nothing else. */
  lemma {:induction false} PendingOfSelects(values: seq<EmailReview>, department: Option<string>,
                                            sensitivity: Option<string>, isPrivate: Option<bool>, x: EmailReview)
    ensures multiset(PendingOf(values, department, sensitivity, isPrivate))[x]
      == if PendingMatch(x, department, sensitivity, isPrivate) then multiset(values)[x] else 0
  {
    if values != [] {
      var head := if PendingMatch(values[0], department, sensitivity, isPrivate) then [values[0]] else [];
      assert multiset(values) == multiset([values[0]]) + multiset(values[1..]) by {
        assert values == [values[0]] + values[1..];
      }
      assert multiset(PendingOf(values, department, sensitivity, isPrivate))
        == multiset(head) + multiset(PendingOf(values[1..], department, sensitivity, isPrivate));
      PendingOfSelects(values[1..], department, sensitivity, isPrivate, x);
    }
  }

  /** The pending list keeps store order: filtering a concatenation
      filters each part, and one review is listed exactly when it matches. */
  lemma {:induction false} PendingOfConcat(a: seq<EmailReview>, b: seq<EmailReview>, department: Option<string>,
                                           sensitivity: Option<string>, isPrivate: Option<bool>)
    ensures PendingOf(a + b, department, sensitivity, isPrivate)
      == PendingOf(a, department, sensitivity, isPrivate) + PendingOf(b, department, sensitivity, isPrivate)
    ensures forall x ::
              PendingOf([x], department, sensitivity, isPrivate)
              == if PendingMatch(x, department, sensitivity, isPrivate) then [x] else []
  {
    forall x ensures PendingOf([x], department, sensitivity, isPrivate)
      == if PendingMatch(x, department, sensitivity, isPrivate) then [x] else []
    {
      assert [x][1..] == [];
    }
    if a == [] {
      assert a + b == b;
    } else {
      var head := if PendingMatch(a[0], department, sensitivity, isPrivate) then [a[0]] else [];
      assert (a + b)[0] == a[0];
      assert (a + b)[1..] == a[1..] + b;
      PendingOfConcat(a[1..], b, department, sensitivity, isPrivate);
      ConcatAssoc(head, PendingOf(a[1..], department, sensitivity, isPrivate),
                  PendingOf(b, department, sensitivity, isPrivate));
    }
  }

  // ---------------------------------------------------------------------
  // Decisions
  // ---------------------------------------------------------------------

  /** What a decision writes into a review: the status, the time, the
      deciding user and the notes; the email, its content and its
      analysis are kept. The prior status is not looked at. */
  function Decide(r: EmailReview, approval: EmailApproval, userId: string, now: string): (d: EmailReview)
    ensures d.status == DecisionStatus(approval.approved)
    ensures d.reviewedAt == Some(now) && d.reviewerId == Some(userId) && d.reviewNotes == approval.notes
    ensures d.emailId == r.emailId && d.content == r.content && d.analysis == r.analysis
  {
    r.(status := DecisionStatus(approval.approved), reviewedAt := Some(now), reviewerId := Some(userId),
       reviewNotes := approval.notes)
  }

  /** A second decision overwrites the first: deciding is not one-way. */
  lemma RedecisionOverwrites(r: EmailReview, first: EmailApproval, second: EmailApproval,
                             user1: string, user2: string, now1: string, now2: string)
    ensures Decide(Decide(r, first, user1, now1), second, user2, now2) == Decide(r, second, user2, now2)
  {
  }

  /** A decided review is never in a pending list, whatever the query. */
  lemma DecidedNotPending(values: seq<EmailReview>, r: EmailReview, approval: EmailApproval, userId: string,
                          now: string, department: Option<string>, sensitivity: Option<string>,
                          isPrivate: Option<bool>)
    ensures Decide(r, approval, userId, now) !in PendingOf(values, department, sensitivity, isPrivate)
  {
  }

  /** The store after `bulk_approve`: every requested id that is stored
      is decided, every other review is kept. */
  function DecideAll(m: map<string, EmailReview>, ids: seq<string>, approval: EmailApproval, userId: string,
                     now: string): (n: map<string, EmailReview>)
    ensures n.Keys == m.Keys
    ensures forall k :: k in m && k in ids ==> n[k] == Decide(m[k], approval, userId, now)
    ensures forall k :: k in m && k !in ids ==> n[k] == m[k]
  {
    map k | k in m :: if k in ids then Decide(m[k], approval, userId, now) else m[k]
  }

  /** Deciding one more requested id: a stored one is decided afresh from
      its original review, which is what deciding again from an earlier
      decision gives too. */
  lemma DecideAllStep(m: map<string, EmailReview>, ids: seq<string>, i: nat, approval: EmailApproval,
                      userId: string, now: string)
    requires i < |ids|
    ensures var before := DecideAll(m, ids[..i], approval, userId, now);
      DecideAll(m, ids[..i + 1], approval, userId, now)
        == if ids[i] in m then before[ids[i] := Decide(before[ids[i]], approval, userId, now)] else before
  {
    var before := DecideAll(m, ids[..i], approval, userId, now);
    var after := DecideAll(m, ids[..i + 1], approval, userId, now);
    assert ids[..i + 1] == ids[..i] + [ids[i]];
    assert forall k :: k in ids[..i + 1] <==> k in ids[..i] || k == ids[i];
    if ids[i] in m {
      var expected := before[ids[i] := Decide(before[ids[i]], approval, userId, now)];
      assert after.Keys == expected.Keys;
      forall k | k in after ensures after[k] == expected[k] {
        if k == ids[i] {
          RedecisionOverwrites(m[k], approval, approval, userId, userId, now, now);
        }
      }
    }
  }

  /** The requested ids that are stored, in request order, repeats kept. */
  function FoundIds(m: map<string, EmailReview>, ids: seq<string>): (r: seq<string>)
    ensures |r| <= |ids|
    ensures forall i :: 0 <= i < |r| ==> r[i] in m && r[i] in ids
  {
    if ids == [] then []
    else FoundIds(m, ids[..|ids| - 1]) + (if ids[|ids| - 1] in m then [ids[|ids| - 1]] else [])
  }

  /** Every stored requested id is found as often as it is requested, and
      nothing else is found. */
  lemma {:induction false} FoundIdsSelects(m: map<string, EmailReview>, ids: seq<string>, x: string)
    ensures multiset(FoundIds(m, ids))[x] == if x in m then multiset(ids)[x] else 0
  {
    if ids != [] {
      var last := ids[|ids| - 1];
      assert ids == ids[..|ids| - 1] + [last];
      assert multiset(ids) == multiset(ids[..|ids| - 1]) + multiset([last]);
      FoundIdsSelects(m, ids[..|ids| - 1], x);
    }
  }

  /** The found ids keep request order: looking up a concatenation looks
      up each part. */
  lemma {:induction false} FoundIdsConcat(m: map<string, EmailReview>, a: seq<string>, b: seq<string>)
    ensures FoundIds(m, a + b) == FoundIds(m, a) + FoundIds(m, b)
  {
    if b == [] {
      assert a + b == a;
    } else {
      var last := b[|b| - 1];
      var tail := if last in m then [last] else [];
      assert (a + b)[..|a + b| - 1] == a + b[..|b| - 1];
      assert (a + b)[|a + b| - 1] == last;
      FoundIdsConcat(m, a, b[..|b| - 1]);
      ConcatAssoc(FoundIds(m, a), FoundIds(m, b[..|b| - 1]), tail);
    }
  }

  /** The list `bulk_approve` returns: the decided review of each found
      id, in request order. */
  function BulkResult(m: map<string, EmailReview>, ids: seq<string>, approval: EmailApproval, userId: string,
                      now: string): (r: seq<EmailReview>)
    ensures |r| == |FoundIds(m, ids)|
    ensures forall i :: 0 <= i < |r| ==> r[i] == Decide(m[FoundIds(m, ids)[i]], approval, userId, now)
  {
    if ids == [] then []
    else
      var last := ids[|ids| - 1];
      BulkResult(m, ids[..|ids| - 1], approval, userId, now)
      + (if last in m then [Decide(m[last], approval, userId, now)] else [])
  }

  lemma BulkResultStep(m: map<string, EmailReview>, ids: seq<string>, i: nat, approval: EmailApproval,
                       userId: string, now: string)
    requires i < |ids|
    ensures BulkResult(m, ids[..i + 1], approval, userId, now)
      == BulkResult(m, ids[..i], approval, userId, now)
         + (if ids[i] in m then [Decide(m[ids[i]], approval, userId, now)] else [])
  {
    assert ids[..i + 1][..i] == ids[..i];
  }

  /** The bulk result keeps request order: the result for a concatenation
      is the results for each part, one after the other, and a single id
      gives its decided review when it is stored and nothing otherwise. */
  lemma {:induction false} BulkResultConcat(m: map<string, EmailReview>, a: seq<string>, b: seq<string>,
                                            approval: EmailApproval, userId: string, now: string)
    ensures BulkResult(m, a + b, approval, userId, now)
      == BulkResult(m, a, approval, userId, now) + BulkResult(m, b, approval, userId, now)
    ensures forall id ::
              BulkResult(m, [id], approval, userId, now)
              == if id in m then [Decide(m[id], approval, userId, now)] else []
  {
    forall id ensures BulkResult(m, [id], approval, userId, now)
      == if id in m then [Decide(m[id], approval, userId, now)] else []
    {
      assert [id][..0] == [];
    }
    if b == [] {
      assert a + b == a;
    } else {
      var last := b[|b| - 1];
      var tail := if last in m then [Decide(m[last], approval, userId, now)] else [];
      assert (a + b)[..|a + b| - 1] == a + b[..|b| - 1];
      assert (a + b)[|a + b| - 1] == last;
      BulkResultConcat(m, a, b[..|b| - 1], approval, userId, now);
      ConcatAssoc(BulkResult(m, a, approval, userId, now), BulkResult(m, b[..|b| - 1], approval, userId, now), tail);
    }
  }

  /** Unknown ids are skipped silently and a repeated id is reported once
      per occurrence. */
  lemma BulkSkipsAndRepeats(m: map<string, EmailReview>, id: string, approval: EmailApproval, userId: string,
                            now: string)
    ensures id !in m ==> BulkResult(m, [id], approval, userId, now) == []
    ensures id in m ==>
              BulkResult(m, [id, id], approval, userId, now)
              == [Decide(m[id], approval, userId, now), Decide(m[id], approval, userId, now)]
  {
    assert [id][..0] == [];
    assert [id, id][..1] == [id];
  }

  // ---------------------------------------------------------------------
  // The store
  // ---------------------------------------------------------------------

  class ReviewStore {
    /** The ids in insertion order. */
    var order: seq<string>
    var reviews: map<string, EmailReview>

    ghost predicate Valid()
      reads this
    {
      NoDup(order) && (forall k :: k in reviews <==> k in order)
    }

    /** The store as some earlier code left it; nothing in the routes adds
        a review. */
    constructor (order: seq<string>, reviews: map<string, EmailReview>)
      requires NoDup(order) && (forall k :: k in reviews <==> k in order)
      ensures Valid() && this.order == order && this.reviews == reviews
    {
      this.order := order;
      this.reviews := reviews;
    }

    /** `email_reviews.values()`, in insertion order. */
    function Values(): (vs: seq<EmailReview>)
      requires Valid()
      reads this
      ensures |vs| == |order|
      ensures forall i :: 0 <= i < |vs| ==> vs[i] == reviews[order[i]]
    {
      ValuesOf(order, reviews)
    }

    /** `GET /review/pending`: the store does not change. */
    function PendingReviews(department: Option<string>, sensitivity: Option<string>, isPrivate: Option<bool>)
      : (r: seq<EmailReview>)
      requires Valid()
      reads this
      ensures forall x :: x in r <==> x in reviews.Values && PendingMatch(x, department, sensitivity, isPrivate)
      ensures r == PendingOf(Values(), department, sensitivity, isPrivate)
    {
      var vs := Values();
      assert forall x :: x in vs <==> x in reviews.Values by {
        forall x | x in reviews.Values ensures x in vs {
          var k :| k in reviews && reviews[k] == x;
          var i :| 0 <= i < |order| && order[i] == k;
          assert vs[i] == x;
        }
      }
      forall x ensures x in PendingOf(vs, department, sensitivity, isPrivate)
        <==> x in vs && PendingMatch(x, department, sensitivity, isPrivate)
      {
        PendingOfSelects(vs, department, sensitivity, isPrivate, x);
      }
      PendingOf(vs, department, sensitivity, isPrivate)
    }

    /** `GET /review/{email_id}`: the stored review or 404. */
    function GetReview(emailId: string): (r: Response<EmailReview>)
      reads this
      ensures emailId in reviews ==> r == Ok(reviews[emailId])
      ensures emailId !in reviews ==> r == Err(ReviewNotFound)
    {
      if emailId in reviews then Ok(reviews[emailId]) else Err(ReviewNotFound)
    }

    /** `POST /review/{email_id}/approve`: an unknown id answers 404 and
        changes nothing; a known one is decided in place, keeping its
        position, and returned. */
    method ApproveReview(emailId: string, approval: EmailApproval, userId: string, now: string)
      returns (r: Response<EmailReview>)
      requires Valid()
      modifies this`reviews
      ensures Valid()
      ensures emailId !in old(reviews) ==> r == Err(ReviewNotFound) && reviews == old(reviews)
      ensures emailId in old(reviews) ==>
        && reviews == old(reviews)[emailId := Decide(old(reviews)[emailId], approval, userId, now)]
        && r == Ok(reviews[emailId])
    {
      if emailId !in reviews {
        return Err(ReviewNotFound);
      }
      var review := Decide(reviews[emailId], approval, userId, now);
      reviews := reviews[emailId := review];
      r := Ok(review);
    }

    /** `POST /review/bulk-approve`: decides each requested id that is
        stored, in request order, and returns the decided reviews. */
    method BulkApprove(emailIds: seq<string>, approval: EmailApproval, userId: string, now: string)
      returns (updated: seq<EmailReview>)
      requires Valid()
      modifies this`reviews
      ensures Valid()
      ensures reviews == DecideAll(old(reviews), emailIds, approval, userId, now)
      ensures updated == BulkResult(old(reviews), emailIds, approval, userId, now)
    {
      updated := [];
      var i := 0;
      while i < |emailIds|
        invariant 0 <= i <= |emailIds|
        invariant reviews == DecideAll(old(reviews), emailIds[..i], approval, userId, now)
        invariant updated == BulkResult(old(reviews), emailIds[..i], approval, userId, now)
      {
        var id := emailIds[i];
        DecideAllStep(old(reviews), emailIds, i, approval, userId, now);
        BulkResultStep(old(reviews), emailIds, i, approval, userId, now);
        if id in reviews {
          var review := Decide(reviews[id], approval, userId, now);
          RedecisionOverwrites(old(reviews)[id], approval, approval, userId, userId, now, now);
          assert review == Decide(old(reviews)[id], approval, userId, now);
          reviews := reviews[id := review];
          updated := updated + [review];
        }
        i := i + 1;
      }
      assert emailIds[..|emailIds|] == emailIds;
    }
  }

  /** The values of `m` listed in the order of `keys`. */
  function ValuesOf(keys: seq<string>, m: map<string, EmailReview>): (vs: seq<EmailReview>)
    requires forall i :: 0 <= i < |keys| ==> keys[i] in m
    ensures |vs| == |keys|
    ensures forall i :: 0 <= i < |vs| ==> vs[i] == m[keys[i]]
  {
    if keys == [] then [] else [m[keys[0]]] + ValuesOf(keys[1..], m)
  }
}
