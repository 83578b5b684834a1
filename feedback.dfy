/** The feedback routes: a user rates the analysis of one of their reviews
    once, reads that rating back, and anyone signed in reads the statistics
    over all ratings. The `feedback` table is a sequence of rows held by
    `FeedbackTable`; the `reviews` table is the one of `Reviews`. */
module Feedback {
  import opened Values
  import Reviews

  const AccuracyError: string := "Accuracy rating must be 1-10"
  const HelpfulnessError: string := "Helpfulness rating must be 1-10"
  const TrustError: string := "Trust rating must be 1-10"
  const ReviewMissing: string := "Review not found"
  const Duplicate: string := "Feedback already submitted for this review"
  const FeedbackMissing: string := "Feedback not found"

  /** A row of `feedback`. */
  datatype FeedbackRow = FeedbackRow(id: nat, reviewId: nat, accuracy: int, helpfulness: int, trust: int,
                                     timeSpent: int, comments: Option<string>, createdAt: int)

  /** The fields of a POST body; an absent field is None. */
  datatype FeedbackBody = FeedbackBody(accuracy: Option<int>, helpfulness: Option<int>, trust: Option<int>,
                                       timeSpent: Option<int>, comments: Option<string>)

  /** A row about to be inserted, before the table gives it an id and a time. */
  datatype Draft = Draft(reviewId: nat, accuracy: int, helpfulness: int, trust: int,
                         timeSpent: int, comments: Option<string>)

  /** The `feedback` object of the 201 reply. */
  datatype Submitted = Submitted(id: nat, reviewId: nat, accuracy: int, helpfulness: int, trust: int, timeSpent: int)

  /** The `statistics` object: the row count and the four averages. */
  datatype Statistics = Statistics(total: nat, accuracy: real, helpfulness: real, trust: real, timeSpent: real)

  /** A rating that passes `!x || x < 1 || x > 10`. */
  predicate Rating(x: Option<int>) {
    x.Some? && 1 <= x.value <= 10
  }

  /** The rating checks, in the order accuracy, helpfulness, trust: the
      message of the first that fails. */
  function ValidateRatings(body: FeedbackBody): (r: Option<string>)
    ensures r.None? <==> Rating(body.accuracy) && Rating(body.helpfulness) && Rating(body.trust)
    ensures r == Some(AccuracyError) <==> !Rating(body.accuracy)
    ensures r == Some(HelpfulnessError) <==> Rating(body.accuracy) && !Rating(body.helpfulness)
    ensures r == Some(TrustError) <==> Rating(body.accuracy) && Rating(body.helpfulness) && !Rating(body.trust)
  {
    if !Rating(body.accuracy) then Some(AccuracyError)
    else if !Rating(body.helpfulness) then Some(HelpfulnessError)
    else if !Rating(body.trust) then Some(TrustError)
    else None
  }

  /** `time_spent || 0`. */
  function TimeSpent(x: Option<int>): (r: int)
    ensures x.Some? ==> r == x.value
    ensures x.None? ==> r == 0
  {
    if x.Some? && x.value != 0 then x.value else 0
  }

  /** `comments || null`. */
  function Comments(x: Option<string>): (r: Option<string>)
    ensures r.Some? <==> x.Some? && x.value != ""
    ensures r.Some? ==> r == x
  {
    if x.Some? && x.value != "" then x else None
  }

  /** The checks of POST `/:reviewId/feedback` in their order (ratings, then
      the caller's ownership of the review, then an earlier rating of it) and
      the row they let through. */
  function Prepare(body: FeedbackBody, reviewId: nat, owned: bool, duplicate: bool): (r: Checked<Draft>)
    ensures ValidateRatings(body).Some? ==> r == Fail(400, ValidateRatings(body).value)
    ensures ValidateRatings(body).None? && !owned ==> r == Fail(404, ReviewMissing)
    ensures ValidateRatings(body).None? && owned && duplicate ==> r == Fail(400, Duplicate)
    ensures r.Pass? <==> ValidateRatings(body).None? && owned && !duplicate
    ensures r.Pass? ==>
              && 1 <= r.value.accuracy <= 10 && 1 <= r.value.helpfulness <= 10 && 1 <= r.value.trust <= 10
              && r.value == Draft(reviewId, body.accuracy.value, body.helpfulness.value, body.trust.value,
                                  TimeSpent(body.timeSpent), Comments(body.comments))
  {
    match ValidateRatings(body)
    case Some(message) => Fail(400, message)
    case None =>
      if !owned then Fail(404, ReviewMissing)
      else if duplicate then Fail(400, Duplicate)
      else Pass(Draft(reviewId, body.accuracy.value, body.helpfulness.value, body.trust.value,
                      TimeSpent(body.timeSpent), Comments(body.comments)))
  }

  /** A bad rating is reported before any table is looked at: the answer
      does not depend on the review lookup or the earlier feedback. */
  lemma RatingsFirst(body: FeedbackBody, reviewId: nat, o1: bool, d1: bool, o2: bool, d2: bool)
    requires !Rating(body.accuracy) || !Rating(body.helpfulness) || !Rating(body.trust)
    ensures Prepare(body, reviewId, o1, d1) == Prepare(body, reviewId, o2, d2)
    ensures Prepare(body, reviewId, o1, d1).Fail? && Prepare(body, reviewId, o1, d1).status == 400
  {
  }

  /** A review the caller does not own is reported as missing whether or not
      it was rated before. */
  lemma OwnershipBeforeDuplicate(body: FeedbackBody, reviewId: nat, d1: bool, d2: bool)
    requires ValidateRatings(body).None?
    ensures Prepare(body, reviewId, false, d1) == Prepare(body, reviewId, false, d2) == Fail(404, ReviewMissing)
  {
  }

  /** The rows for one review, in their order. */
  function ForReview(rows: seq<FeedbackRow>, reviewId: nat): (r: seq<FeedbackRow>)
    ensures |r| <= |rows|
    ensures forall x :: x in r <==> x in rows && x.reviewId == reviewId
  {
    if rows == [] then []
    else
      var tail := ForReview(rows[1..], reviewId);
      assert forall x :: x in rows <==> x == rows[0] || x in rows[1..];
      if rows[0].reviewId == reviewId then [rows[0]] + tail else tail
  }

  /** No two rows rate the same review. */
  predicate OnePerReview(rows: seq<FeedbackRow>) {
    forall i, j :: 0 <= i < j < |rows| ==> rows[i].reviewId != rows[j].reviewId
  }

  /** Every stored rating is within 1..10. */
  predicate RatingsInRange(rows: seq<FeedbackRow>) {
    forall i :: 0 <= i < |rows| ==>
      1 <= rows[i].accuracy <= 10 && 1 <= rows[i].helpfulness <= 10 && 1 <= rows[i].trust <= 10
  }

  /** With one row per review, the rows for a review that has one are exactly
      that row, so `.single()` finds it. */
  lemma {:induction false} SingleRow(rows: seq<FeedbackRow>, k: nat)
    requires OnePerReview(rows) && k < |rows|
    ensures ForReview(rows, rows[k].reviewId) == [rows[k]]
    decreases |rows|
  {
    var id := rows[k].reviewId;
    assert forall i :: 0 <= i < |rows| - 1 ==> rows[1..][i] == rows[i + 1];
    if k == 0 {
      var rest := ForReview(rows[1..], id);
      assert forall i :: 0 <= i < |rows[1..]| ==> rows[1..][i].reviewId != id;
      HeadIn(rest);
    } else {
      assert rows[1..][k - 1] == rows[k];
      SingleRow(rows[1..], k - 1);
      assert rows[0].reviewId != id;
    }
  }

  lemma HeadIn<T>(s: seq<T>)
    ensures s != [] ==> s[0] in s
  {
  }

  /** Adding a row for a review that had none keeps one row per review. */
  lemma AppendKeepsOnePerReview(rows: seq<FeedbackRow>, row: FeedbackRow)
    requires OnePerReview(rows) && ForReview(rows, row.reviewId) == []
    ensures OnePerReview(rows + [row])
  {
    forall i, j | 0 <= i < j < |rows + [row]|
      ensures (rows + [row])[i].reviewId != (rows + [row])[j].reviewId
    {
      if j == |rows| {
        assert rows[i] in rows;
        assert rows[i] !in ForReview(rows, row.reviewId);
      }
    }
  }

  /** The left fold `xs.reduce((sum, x) => sum + x, 0)`. */
  function Sum(xs: seq<int>): int {
    if xs == [] then 0 else Sum(xs[..|xs| - 1]) + xs[|xs| - 1]
  }

  /** A sum of values within `lo..hi` lies within `lo·n..hi·n`. */
  lemma {:induction false} SumBounds(xs: seq<int>, lo: int, hi: int)
    requires forall i :: 0 <= i < |xs| ==> lo <= xs[i] <= hi
    ensures lo * |xs| <= Sum(xs) <= hi * |xs|
  {
    if xs != [] {
      var init := xs[..|xs| - 1];
      assert forall i :: 0 <= i < |init| ==> init[i] == xs[i];
      SumBounds(init, lo, hi);
      assert lo * |xs| == lo * |init| + lo;
      assert hi * |xs| == hi * |init| + hi;
    }
  }

  function Accuracies(rows: seq<FeedbackRow>): (r: seq<int>)
    ensures |r| == |rows| && forall i :: 0 <= i < |rows| ==> r[i] == rows[i].accuracy
  {
    seq(|rows|, i requires 0 <= i < |rows| => rows[i].accuracy)
  }

  function Helpfulness(rows: seq<FeedbackRow>): (r: seq<int>)
    ensures |r| == |rows| && forall i :: 0 <= i < |rows| ==> r[i] == rows[i].helpfulness
  {
    seq(|rows|, i requires 0 <= i < |rows| => rows[i].helpfulness)
  }

  function Trusts(rows: seq<FeedbackRow>): (r: seq<int>)
    ensures |r| == |rows| && forall i :: 0 <= i < |rows| ==> r[i] == rows[i].trust
  {
    seq(|rows|, i requires 0 <= i < |rows| => rows[i].trust)
  }

  function Times(rows: seq<FeedbackRow>): (r: seq<int>)
    ensures |r| == |rows| && forall i :: 0 <= i < |rows| ==> r[i] == rows[i].timeSpent
  {
    seq(|rows|, i requires 0 <= i < |rows| => rows[i].timeSpent)
  }

  /** The column sum divided by the row count. */
  function Average(xs: seq<int>): real
    requires xs != []
  {
    Sum(xs) as real / |xs| as real
  }

  /** An average of values within `lo..hi` lies within `lo..hi`. */
  lemma AverageBounds(xs: seq<int>, lo: int, hi: int)
    requires xs != [] && forall i :: 0 <= i < |xs| ==> lo <= xs[i] <= hi
    ensures lo as real <= Average(xs) <= hi as real
  {
    SumBounds(xs, lo, hi);
    DivBounds(Sum(xs), |xs|, lo, hi);
  }

  lemma DivBounds(s: int, n: int, lo: int, hi: int)
    requires n > 0 && lo * n <= s <= hi * n
    ensures lo as real <= s as real / n as real <= hi as real
  {
    var q := s as real / n as real;
    assert q * n as real == s as real;
    assert (lo * n) as real == lo as real * n as real;
    assert (hi * n) as real == hi as real * n as real;
    assert (q - lo as real) * n as real == s as real - lo as real * n as real;
    assert (hi as real - q) * n as real == hi as real * n as real - s as real;
  }

  /** GET `/statistics` over the rows of the whole table, whoever asks. */
  function StatisticsOf(rows: seq<FeedbackRow>, fault: Option<string>): (r: Reply<Statistics>)
    ensures fault.Some? ==> r == Err(400, fault.value)
    ensures fault.None? ==> r.Ok? && r.status == 200 && r.value.total == |rows|
    ensures fault.None? && rows == [] ==> r.value == Statistics(0, 0.0, 0.0, 0.0, 0.0)
    ensures fault.None? && rows != [] ==>
              && r.value.accuracy == Average(Accuracies(rows))
              && r.value.helpfulness == Average(Helpfulness(rows))
              && r.value.trust == Average(Trusts(rows))
              && r.value.timeSpent == Average(Times(rows))
    ensures fault.None? && rows != [] && RatingsInRange(rows) ==>
              && 1.0 <= r.value.accuracy <= 10.0
              && 1.0 <= r.value.helpfulness <= 10.0
              && 1.0 <= r.value.trust <= 10.0
  {
    if fault.Some? then Err(400, fault.value)
    else if rows == [] then Ok(200, Statistics(0, 0.0, 0.0, 0.0, 0.0))
    else
      assert RatingsInRange(rows) ==>
               1.0 <= Average(Accuracies(rows)) <= 10.0
               && 1.0 <= Average(Helpfulness(rows)) <= 10.0
               && 1.0 <= Average(Trusts(rows)) <= 10.0 by {
        if RatingsInRange(rows) {
          AverageBounds(Accuracies(rows), 1, 10);
          AverageBounds(Helpfulness(rows), 1, 10);
          AverageBounds(Trusts(rows), 1, 10);
        }
      }
      Ok(200, Statistics(|rows|, Average(Accuracies(rows)), Average(Helpfulness(rows)),
                         Average(Trusts(rows)), Average(Times(rows))))
  }

  /** Two ratings, (8, 7, 9, 30 s) and (6, 5, 7, 50 s), average to
      (7, 6, 8, 40 s). */
  lemma TwoRatingsExample()
    ensures var rows := [FeedbackRow(1, 1, 8, 7, 9, 30, None, 0), FeedbackRow(2, 2, 6, 5, 7, 50, None, 0)];
            StatisticsOf(rows, None) == Ok(200, Statistics(2, 7.0, 6.0, 8.0, 40.0))
  {
    var rows := [FeedbackRow(1, 1, 8, 7, 9, 30, None, 0), FeedbackRow(2, 2, 6, 5, 7, 50, None, 0)];
    assert Accuracies(rows) == [8, 6];
    assert Helpfulness(rows) == [7, 5];
    assert Trusts(rows) == [9, 7];
    assert Times(rows) == [30, 50];
    SumOfTwo(8, 6);
    SumOfTwo(7, 5);
    SumOfTwo(9, 7);
    SumOfTwo(30, 50);
  }

  lemma SumOfTwo(a: int, b: int)
    ensures Sum([a, b]) == a + b
  {
    assert [a, b][..1] == [a];
    assert [a][..0] == [];
    assert Sum([a]) == a;
  }

  /** Ids increase and are below `nextId`, and every rating is within
      1..10. */
  predicate Stored(rows: seq<FeedbackRow>, nextId: nat) {
    && (forall i, j :: 0 <= i < j < |rows| ==> rows[i].id < rows[j].id)
    && (forall i :: 0 <= i < |rows| ==> rows[i].id < nextId)
    && RatingsInRange(rows)
  }

  /** Appending a row with the next id and ratings within 1..10 keeps the
      table's invariant for the following id. */
  lemma AppendStored(rows: seq<FeedbackRow>, nextId: nat, row: FeedbackRow)
    requires Stored(rows, nextId) && row.id == nextId
    requires 1 <= row.accuracy <= 10 && 1 <= row.helpfulness <= 10 && 1 <= row.trust <= 10
    ensures Stored(rows + [row], nextId + 1)
  {
    var s := rows + [row];
    assert forall i :: 0 <= i < |rows| ==> s[i] == rows[i];
  }

  class FeedbackTable {
    var rows: seq<FeedbackRow>
    var nextId: nat

    /** Ids increase and are below the next one, and every stored rating is
        within 1..10. */
    ghost predicate Valid()
      reads this
    {
      Stored(rows, nextId)
    }

    constructor ()
      ensures Valid() && rows == [] && nextId == 0
    {
      rows := [];
      nextId := 0;
    }

    /** POST `/:reviewId/feedback`. The review lookup fails when `lookupFault`
        holds; a failing query for earlier feedback (`existingFault`) is
        ignored by the handler and reads as "none"; a failing insert gives
        its message. On success exactly one row is appended; otherwise the
        table is unchanged. */
    method Submit(reviews: Reviews.ReviewTable, reviewId: nat, userId: string, body: FeedbackBody,
                  lookupFault: bool, existingFault: bool, insertFault: Option<string>, now: int)
      returns (reply: Reply<Submitted>)
      requires Valid() && reviews.Valid()
      modifies this
      ensures Valid()
      ensures var owned := reviews.Get(reviewId, userId, lookupFault).Ok?;
              var duplicate := !existingFault && old(ForReview(rows, reviewId)) != [];
              match Prepare(body, reviewId, owned, duplicate)
              case Fail(status, message) =>
                reply == Err(status, message) && rows == old(rows) && nextId == old(nextId)
              case Pass(d) =>
                if insertFault.Some? then
                  reply == Err(400, insertFault.value) && rows == old(rows) && nextId == old(nextId)
                else
                  && rows == old(rows) + [FeedbackRow(old(nextId), reviewId, d.accuracy, d.helpfulness, d.trust,
                                                      d.timeSpent, d.comments, now)]
                  && nextId == old(nextId) + 1
                  && reply == Ok(201, Submitted(old(nextId), reviewId, d.accuracy, d.helpfulness, d.trust, d.timeSpent))
      ensures reply.Ok? ==> exists x :: x in reviews.rows && x.id == reviewId && x.userId == userId
      ensures !existingFault && old(OnePerReview(rows)) ==> OnePerReview(rows)
    {
      var owned := reviews.Get(reviewId, userId, lookupFault).Ok?;
      var duplicate := !existingFault && ForReview(rows, reviewId) != [];
      match Prepare(body, reviewId, owned, duplicate)
      case Fail(status, message) =>
        reply := Err(status, message);
      case Pass(d) =>
        reply := Insert(d, insertFault, now);
    }

    /** The insert that ends a successful POST: a failing insert gives its
        message and changes nothing; otherwise one row is appended. */
    method Insert(d: Draft, insertFault: Option<string>, now: int) returns (reply: Reply<Submitted>)
      requires Valid() && 1 <= d.accuracy <= 10 && 1 <= d.helpfulness <= 10 && 1 <= d.trust <= 10
      modifies this
      ensures Valid()
      ensures insertFault.Some? ==> reply == Err(400, insertFault.value) && rows == old(rows) && nextId == old(nextId)
      ensures insertFault.None? ==>
                && rows == old(rows) + [FeedbackRow(old(nextId), d.reviewId, d.accuracy, d.helpfulness, d.trust,
                                                    d.timeSpent, d.comments, now)]
                && nextId == old(nextId) + 1
                && reply == Ok(201, Submitted(old(nextId), d.reviewId, d.accuracy, d.helpfulness, d.trust, d.timeSpent))
      ensures old(OnePerReview(rows)) && old(ForReview(rows, d.reviewId)) == [] ==> OnePerReview(rows)
    {
      if insertFault.Some? {
        reply := Err(400, insertFault.value);
      } else {
        var row := FeedbackRow(nextId, d.reviewId, d.accuracy, d.helpfulness, d.trust, d.timeSpent, d.comments, now);
        if OnePerReview(rows) && ForReview(rows, d.reviewId) == [] {
          AppendKeepsOnePerReview(rows, row);
        }
        AppendStored(rows, nextId, row);
        rows := rows + [row];
        nextId := nextId + 1;
        reply := Ok(201, Submitted(row.id, d.reviewId, d.accuracy, d.helpfulness, d.trust, d.timeSpent));
      }
    }

    /** GET `/:reviewId/feedback`: ownership first, then the single row for
        the review. */
    function GetFeedback(reviews: Reviews.ReviewTable, reviewId: nat, userId: string,
                         lookupFault: bool, fault: bool): (r: Reply<FeedbackRow>)
      reads this, reviews
      requires reviews.Valid()
      ensures reviews.Get(reviewId, userId, lookupFault).Err? ==> r == Err(404, ReviewMissing)
      ensures reviews.Get(reviewId, userId, lookupFault).Ok? && (fault || |ForReview(rows, reviewId)| != 1) ==>
                r == Err(404, FeedbackMissing)
      ensures reviews.Get(reviewId, userId, lookupFault).Ok? && !fault && |ForReview(rows, reviewId)| == 1 ==>
                r == Ok(200, ForReview(rows, reviewId)[0])
      ensures r.Ok? ==> r.status == 200 && r.value in rows && r.value.reviewId == reviewId
                        && ForReview(rows, reviewId) == [r.value]
    {
      if reviews.Get(reviewId, userId, lookupFault).Err? then Err(404, ReviewMissing)
      else
        var found := ForReview(rows, reviewId);
        if fault || |found| != 1 then Err(404, FeedbackMissing)
        else
          assert found[0] in found;
          Ok(200, found[0])
    }

    /** With one row per review, a stored rating of an owned review is what
        GET returns. */
    lemma GetFindsStored(reviews: Reviews.ReviewTable, k: nat, userId: string)
      requires reviews.Valid() && OnePerReview(rows) && k < |rows|
      requires reviews.Get(rows[k].reviewId, userId, false).Ok?
      ensures GetFeedback(reviews, rows[k].reviewId, userId, false, false) == Ok(200, rows[k])
    {
      SingleRow(rows, k);
    }

    /** GET `/statistics`. */
    function GetStatistics(fault: Option<string>): (r: Reply<Statistics>)
      reads this
      requires Valid()
      ensures fault.None? ==> r.Ok? && r.value.total == |rows|
      ensures fault.None? && rows != [] ==>
                && 1.0 <= r.value.accuracy <= 10.0
                && 1.0 <= r.value.helpfulness <= 10.0
                && 1.0 <= r.value.trust <= 10.0
    {
      StatisticsOf(rows, fault)
    }
  }
}
