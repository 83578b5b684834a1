/** The review routes: create a review by analysing a snippet and storing
    the result, list the caller's reviews a page at a time, and fetch or
    delete one review. The `reviews` table is a sequence of rows in insertion
    order, held by `ReviewTable`; a failing table call is a fault parameter
    carrying the error message. */
module Reviews {
  import opened Values
  import opened Strings
  import opened Analysis

  const CodeRequired: string := "Code snippet is required"
  const TitleRequired: string := "Title is required"
  const NotFound: string := "Review not found"
  const DefaultLanguage: string := "javascript"
  /** The TypeError raised by `analysis.score` when the parsed reply is
      `null`. */
  const NullScore: string := "Cannot read properties of null (reading 'score')"

  /** A row of `reviews`. */
  datatype Review = Review(id: nat, userId: string, title: string, codeSnippet: string,
                           language: string, aiSuggestions: Json, score: Json, createdAt: int)

  /** The fields of a POST body; an absent field is None. */
  datatype Submission = Submission(code: Option<string>, title: Option<string>, language: Option<string>)

  /** A row about to be inserted, before the table gives it an id and a time. */
  datatype Draft = Draft(userId: string, title: string, codeSnippet: string,
                         language: string, aiSuggestions: Json, score: Json)

  /** The `review` object of the 201 reply. */
  datatype Created = Created(id: nat, title: string, score: Json, analysis: Json)

  /** The body of a list reply: one page of reviews and the pagination block. */
  datatype Listing = Listing(reviews: seq<Review>, page: int, limit: int, total: nat, pages: int)

  /** `x && x.trim().length !== 0`. */
  predicate Present(x: Option<string>) {
    x.Some? && !IsBlank(x.value)
  }

  /** The body checks, code first: the message of the first that fails. */
  function Validate(body: Submission): (r: Option<string>)
    ensures r == Some(CodeRequired) <==> !Present(body.code)
    ensures r == Some(TitleRequired) <==> Present(body.code) && !Present(body.title)
    ensures r == None <==> Present(body.code) && Present(body.title)
  {
    if !Present(body.code) then Some(CodeRequired)
    else if !Present(body.title) then Some(TitleRequired)
    else None
  }

  /** `analysis.score || 0` for a parsed reply that is not `null`. */
  function StoredScore(analysis: Json): (r: Json)
    requires analysis != Null
    ensures Truthy(Some(r)) || r == Num(0)
    ensures analysis.Obj? && "score" in analysis.fields && Truthy(Some(analysis.fields["score"])) ==>
              r == analysis.fields["score"]
    ensures !(analysis.Obj? && "score" in analysis.fields) ==> r == Num(0)
    ensures analysis.Obj? && "score" in analysis.fields && !Truthy(Some(analysis.fields["score"])) ==> r == Num(0)
  {
    var s := Member(analysis, "score");
    if Truthy(s) then s.value else Num(0)
  }

  /** Everything POST `/` does before the insert: validate the body, analyse
      the snippet with `analyze` (the Groq service's `analyzeCode`) and build
      the row. The snippet is analysed only once the body is valid. */
  function Prepare(body: Submission, userId: string, analyze: string -> Outcome): (r: Checked<Draft>)
    ensures Validate(body).Some? ==> r == Fail(400, Validate(body).value)
    ensures Validate(body).None? && analyze(body.code.value).Thrown? ==>
              r == Fail(500, ErrorText(analyze(body.code.value).message))
    ensures Validate(body).None? && analyze(body.code.value) == Analyzed(Null) ==>
              r == Fail(500, NullScore)
    ensures r.Pass? ==>
              && Validate(body).None?
              && analyze(body.code.value).Analyzed?
              && var analysis := analyze(body.code.value).analysis;
              && analysis != Null
              && r.value == Draft(userId, body.title.value, body.code.value,
                                  OrDefault(body.language, DefaultLanguage), analysis, StoredScore(analysis))
  {
    match Validate(body)
    case Some(message) => Fail(400, message)
    case None =>
      match analyze(body.code.value)
      case Thrown(message) => Fail(500, ErrorText(message))
      case Analyzed(analysis) =>
        if analysis == Null then Fail(500, NullScore)
        else Pass(Draft(userId, body.title.value, body.code.value,
                        OrDefault(body.language, DefaultLanguage), analysis, StoredScore(analysis)))
  }

  /** A rejected body is rejected whatever the analysis would have said: the
      snippet is not analysed. */
  lemma InvalidNotAnalysed(body: Submission, userId: string, a1: string -> Outcome, a2: string -> Outcome)
    requires !Present(body.code) || !Present(body.title)
    ensures Prepare(body, userId, a1) == Prepare(body, userId, a2)
    ensures Prepare(body, userId, a1).Fail? && Prepare(body, userId, a1).status == 400
  {
  }

  /** The prompt asks for `{"analysis": {...}}`, and the service hands the
      parsed reply back unchanged under `analysis` (`Analysis.ParsedUnchanged`),
      so a model that follows the requested format has its review stored with
      score 0, whatever score it gave. */
  lemma RequestedFormatScoresZero(body: Submission, userId: string, analyze: string -> Outcome, record: Json)
    requires Present(body.code) && Present(body.title)
    requires analyze(body.code.value) == Analyzed(Obj(map["analysis" := record]))
    ensures Prepare(body, userId, analyze).Pass?
    ensures Prepare(body, userId, analyze).value.score == Num(0)
    ensures Prepare(body, userId, analyze).value.aiSuggestions == Obj(map["analysis" := record])
  {
    var v := Obj(map["analysis" := record]);
    assert StoredScore(v) == Num(0) by {
      assert "score" !in v.fields;
    }
  }

  /** The top-level score of a flat reply is what is stored, when it is not
      falsy. */
  lemma FlatFormatKeepsScore(analysis: Json, score: int)
    requires analysis.Obj? && "score" in analysis.fields && analysis.fields["score"] == Num(score)
    ensures StoredScore(analysis) == (if score != 0 then Num(score) else Num(0))
  {
  }

  /** `parseInt(x) || fallback`, where None stands for NaN. */
  function Param(x: Option<int>, fallback: int): (r: int)
    ensures r != 0 || fallback == 0
    ensures x.Some? && x.value != 0 ==> r == x.value
    ensures x.None? || x.value == 0 ==> r == fallback
  {
    if x.Some? && x.value != 0 then x.value else fallback
  }

  /** `Math.ceil(a / b)` for a divisor that is not 0. */
  function CeilDiv(a: int, b: int): (r: int)
    requires b != 0
    ensures b > 0 ==> (r - 1) * b < a <= r * b
    ensures b < 0 ==> r * b <= a < (r - 1) * b
  {
    if b > 0 then
      var q := (-a) / b;
      assert q * b <= -a < (q + 1) * b;
      -q
    else
      var q := a / (-b);
      assert q * (-b) <= a < (q + 1) * (-b);
      -q
  }

  /** The number of pages covers every row and no page is empty:
      `Math.ceil(total / limit)` is 0 for no rows, and otherwise the rows
      before the last page do not reach `total` while the last page does. */
  lemma PageCount(total: nat, limit: int)
    requires limit >= 1
    ensures total == 0 ==> CeilDiv(total, limit) == 0
    ensures total > 0 ==> CeilDiv(total, limit) >= 1
                          && (CeilDiv(total, limit) - 1) * limit < total <= CeilDiv(total, limit) * limit
  {
    var p := CeilDiv(total, limit);
    MulSign(p, limit);
    MulSign(p - 1, limit);
  }

  lemma MulSign(x: int, y: int)
    requires y >= 1
    ensures x >= 0 <==> x * y >= 0
    ensures x >= 1 <==> x * y >= y
  {
    if x >= 1 {
      MulMono(1, x, y);
    } else if x < 0 {
      MulMono(x, -1, y);
    }
  }

  lemma MulMonoStrict(a: int, b: int, c: int)
    requires c >= 1 && a * c < b * c
    ensures a < b
  {
    if b <= a { MulMono(b, a, c); }
  }

  lemma MulMono(a: int, b: int, c: int)
    requires a <= b && c >= 0
    ensures a * c <= b * c
  {
    assert b * c - a * c == (b - a) * c;
  }

  /** The rows of `s` in the closed index range `[offset, offset+limit-1]`,
      as `.range(offset, offset + limit - 1)` returns them. */
  function Window<T>(s: seq<T>, offset: int, limit: int): (r: seq<T>)
    ensures |r| <= |s|
    ensures limit <= 0 ==> r == []
    ensures forall x :: x in r ==> x in s
    ensures 0 <= offset ==> |r| == (if offset + limit <= |s| then (if limit > 0 then limit else 0)
                                    else if offset <= |s| then |s| - offset else 0)
    ensures 0 <= offset ==> forall k :: 0 <= k < |r| ==> r[k] == s[offset + k]
  {
    var lo := if offset < 0 then 0 else if offset > |s| then |s| else offset;
    var hi := if offset + limit < lo then lo else if offset + limit > |s| then |s| else offset + limit;
    s[lo..hi]
  }

  /** With a positive page size, row `k` of the sorted list is on page
      `k / limit + 1`, and that page holds no more than `limit` rows. */
  lemma RowOnItsPage<T>(s: seq<T>, k: nat, limit: int)
    requires limit >= 1 && k < |s|
    ensures var page := k / limit + 1;
            var w := Window(s, (page - 1) * limit, limit);
            |w| <= limit && s[k] in w && 1 <= page <= CeilDiv(|s|, limit)
  {
    var page := k / limit + 1;
    var offset := (page - 1) * limit;
    assert offset == (k / limit) * limit;
    PageOfRow(k, limit);
    var w := Window(s, offset, limit);
    assert 0 <= k - offset < |w|;
    assert w[k - offset] == s[k];
    PageWithinCount(k, |s|, limit);
  }

  /** Row `k` lies in the block of `limit` rows that starts at
      `(k / limit) * limit`. */
  lemma PageOfRow(k: nat, limit: int)
    requires limit >= 1
    ensures (k / limit) * limit <= k < (k / limit) * limit + limit
  {
    assert k == (k / limit) * limit + k % limit;
  }

  /** The page of a row that exists is within the page count. */
  lemma PageWithinCount(k: nat, n: nat, limit: int)
    requires limit >= 1 && k < n
    ensures k / limit + 1 <= CeilDiv(n, limit)
  {
    PageOfRow(k, limit);
    PageCount(n, limit);
    MulMonoStrict(k / limit, CeilDiv(n, limit), limit);
  }

  /** The rows of `rows` whose `p` holds, in their order. */
  function Select(rows: seq<Review>, p: Review -> bool): (r: seq<Review>)
    ensures |r| <= |rows|
    ensures forall x :: x in r <==> x in rows && p(x)
    ensures IncreasingIds(rows) ==> IncreasingIds(r)
  {
    if rows == [] then []
    else
      var tail := Select(rows[1..], p);
      Uncons(rows);
      if p(rows[0]) then
        assert IncreasingIds(rows) ==> IncreasingIds([rows[0]] + tail) by {
          if IncreasingIds(rows) {
            HeadBelowRest(rows, tail);
            ConsIncreasing(rows[0], tail);
          }
        }
        [rows[0]] + tail
      else tail
  }

  lemma Uncons(rows: seq<Review>)
    requires rows != []
    ensures forall x :: x in rows <==> x == rows[0] || x in rows[1..]
    ensures IncreasingIds(rows) ==> IncreasingIds(rows[1..])
  {
    assert rows == [rows[0]] + rows[1..];
  }

  /** In an increasing list the first id is below every id taken from the
      rest of it. */
  lemma HeadBelowRest(rows: seq<Review>, tail: seq<Review>)
    requires rows != [] && IncreasingIds(rows) && forall x :: x in tail ==> x in rows[1..]
    ensures forall x :: x in tail ==> rows[0].id < x.id
  {
    forall x | x in tail ensures rows[0].id < x.id {
      var i :| 0 <= i < |rows[1..]| && rows[1..][i] == x;
      assert rows[i + 1] == x;
    }
  }

  lemma ConsIncreasing(h: Review, tail: seq<Review>)
    requires IncreasingIds(tail) && forall x :: x in tail ==> h.id < x.id
    ensures IncreasingIds([h] + tail)
  {
    var s := [h] + tail;
    forall i, j | 0 <= i < j < |s| ensures s[i].id < s[j].id {
      assert s[j] == tail[j - 1];
      if i > 0 { assert s[i] == tail[i - 1]; } else { assert tail[j - 1] in tail; }
    }
  }

  /** Row ids strictly increase along the sequence. */
  predicate IncreasingIds(rows: seq<Review>) {
    forall i, j :: 0 <= i < j < |rows| ==> rows[i].id < rows[j].id
  }

  /** Row ids strictly decrease along the sequence: newest first. */
  predicate DecreasingIds(rows: seq<Review>) {
    forall i, j :: 0 <= i < j < |rows| ==> rows[i].id > rows[j].id
  }

  function Reverse(s: seq<Review>): (r: seq<Review>)
    ensures |r| == |s|
    ensures forall k :: 0 <= k < |s| ==> r[k] == s[|s| - 1 - k]
  {
    if s == [] then [] else Reverse(s[1..]) + [s[0]]
  }

  function OwnedBy(rows: seq<Review>, userId: string): seq<Review> {
    Select(rows, (x: Review) => x.userId == userId)
  }

  /** The caller's rows, newest first. */
  function Newest(rows: seq<Review>, userId: string): (r: seq<Review>)
    ensures forall x :: x in r <==> x in rows && x.userId == userId
    ensures IncreasingIds(rows) ==> DecreasingIds(r)
  {
    var owned := OwnedBy(rows, userId);
    ReverseMembers(owned);
    assert IncreasingIds(rows) ==> DecreasingIds(Reverse(owned)) by {
      if IncreasingIds(rows) {
        ReverseDecreasing(owned);
      }
    }
    Reverse(owned)
  }

  lemma ReverseMembers(s: seq<Review>)
    ensures forall x :: x in Reverse(s) <==> x in s
  {
    var r := Reverse(s);
    forall x | x in s ensures x in r {
      var i :| 0 <= i < |s| && s[i] == x;
      assert r[|s| - 1 - i] == x;
    }
  }

  lemma ReverseDecreasing(s: seq<Review>)
    requires IncreasingIds(s)
    ensures DecreasingIds(Reverse(s))
  {
    var r := Reverse(s);
    forall i, j | 0 <= i < j < |r| ensures r[i].id > r[j].id {
      assert r[i] == s[|s| - 1 - i] && r[j] == s[|s| - 1 - j];
    }
  }

  class ReviewTable {
    var rows: seq<Review>
    var nextId: nat

    /** Ids are assigned in increasing order and are below the next one. */
    ghost predicate Valid()
      reads this
    {
      IncreasingIds(rows) && forall i :: 0 <= i < |rows| ==> rows[i].id < nextId
    }

    constructor ()
      ensures Valid() && rows == [] && nextId == 0
    {
      rows := [];
      nextId := 0;
    }

    /** POST `/`: on success one row is appended, owned by the authenticated
        user, with the next id and the given time; on every failure the
        table is unchanged. */
    method Create(body: Submission, userId: string, analyze: string -> Outcome,
                  insertFault: Option<string>, now: int)
      returns (reply: Reply<Created>)
      requires Valid()
      modifies this
      ensures Valid()
      ensures Prepare(body, userId, analyze).Fail? ==>
                && var f := Prepare(body, userId, analyze);
                && reply == Err(f.status, f.message)
                && rows == old(rows) && nextId == old(nextId)
      ensures Prepare(body, userId, analyze).Pass? && insertFault.Some? ==>
                reply == Err(400, insertFault.value) && rows == old(rows) && nextId == old(nextId)
      ensures Prepare(body, userId, analyze).Pass? && insertFault.None? ==>
                && var d := Prepare(body, userId, analyze).value;
                && rows == old(rows) + [Review(old(nextId), userId, d.title, d.codeSnippet,
                                              d.language, d.aiSuggestions, d.score, now)]
                && nextId == old(nextId) + 1
                && reply == Ok(201, Created(old(nextId), d.title, d.score, d.aiSuggestions))
    {
      match Prepare(body, userId, analyze)
      case Fail(status, message) =>
        reply := Err(status, message);
      case Pass(d) =>
        if insertFault.Some? {
          reply := Err(400, insertFault.value);
        } else {
          var row := Review(nextId, userId, d.title, d.codeSnippet, d.language, d.aiSuggestions, d.score, now);
          rows := rows + [row];
          nextId := nextId + 1;
          reply := Ok(201, Created(row.id, row.title, row.score, d.aiSuggestions));
        }
    }

    /** GET `/`: one page of the caller's reviews, newest first, with the
        pagination block. */
    function List(userId: string, page: Option<int>, limit: Option<int>,
                  countFault: Option<string>, dataFault: Option<string>): (r: Reply<Listing>)
      reads this
      requires Valid()
      ensures countFault.Some? ==> r == Err(400, countFault.value)
      ensures countFault.None? && dataFault.Some? ==> r == Err(400, dataFault.value)
      ensures r.Ok? ==>
                && r.status == 200
                && var l := r.value;
                && l.page == Param(page, 1) && l.limit == Param(limit, 10)
                && l.reviews == Window(Newest(rows, userId), (l.page - 1) * l.limit, l.limit)
                && (forall x :: x in l.reviews ==> x in rows && x.userId == userId)
                && DecreasingIds(l.reviews)
                && l.total == |OwnedBy(rows, userId)|
                && l.pages == CeilDiv(l.total, l.limit)
    {
      if countFault.Some? then Err(400, countFault.value)
      else if dataFault.Some? then Err(400, dataFault.value)
      else
        var p := Param(page, 1);
        var n := Param(limit, 10);
        var newest := Newest(rows, userId);
        var w := Window(newest, (p - 1) * n, n);
        assert DecreasingIds(w) by {
          WindowKeepsOrder(newest, (p - 1) * n, n);
        }
        var total := |OwnedBy(rows, userId)|;
        Ok(200, Listing(w, p, n, total, CeilDiv(total, n)))
    }

    /** GET `/:id`: the row with this id if the caller owns it, and 404
        otherwise. */
    function Get(id: nat, userId: string, fault: bool): (r: Reply<Review>)
      reads this
      requires Valid()
      ensures r.Ok? <==> !fault && exists x :: x in rows && x.id == id && x.userId == userId
      ensures r.Ok? ==> r.status == 200 && r.value in rows && r.value.id == id && r.value.userId == userId
      ensures r.Err? ==> r == Err(404, NotFound)
    {
      var found := Select(rows, (x: Review) => x.id == id && x.userId == userId);
      if fault || |found| != 1 then
        assert !fault && (exists x :: x in rows && x.id == id && x.userId == userId) ==> |found| == 1 by {
          if !fault && exists x :: x in rows && x.id == id && x.userId == userId {
            var x :| x in rows && x.id == id && x.userId == userId;
            assert x in found;
            SingleMatch(found, id);
          }
        }
        Err(404, NotFound)
      else
        assert found[0] in found;
        Ok(200, found[0])
    }

    /** DELETE `/:id`: removes the rows with this id that the caller owns and
        keeps every other row, in order; it answers 200 even when nothing
        matched. A failing delete changes nothing. */
    method Delete(id: nat, userId: string, fault: Option<string>) returns (reply: Reply<string>)
      requires Valid()
      modifies this
      ensures Valid() && nextId == old(nextId)
      ensures fault.Some? ==> reply == Err(400, fault.value) && rows == old(rows)
      ensures fault.None? ==> reply == Ok(200, "Review deleted successfully")
      ensures fault.None? ==> rows == Select(old(rows), (x: Review) => !(x.id == id && x.userId == userId))
      ensures fault.None? ==> forall x :: x in rows <==> x in old(rows) && !(x.id == id && x.userId == userId)
    {
      if fault.Some? {
        reply := Err(400, fault.value);
      } else {
        rows := Select(rows, (x: Review) => !(x.id == id && x.userId == userId));
        assert forall i :: 0 <= i < |rows| ==> rows[i] in old(rows);
        reply := Ok(200, "Review deleted successfully");
      }
    }
  }

  /** A window of a newest-first list is newest first. */
  lemma WindowKeepsOrder(s: seq<Review>, offset: int, limit: int)
    requires DecreasingIds(s)
    ensures DecreasingIds(Window(s, offset, limit))
  {
  }

  /** Among rows with distinct ids, at most one has a given id. */
  lemma SingleMatch(found: seq<Review>, id: nat)
    requires IncreasingIds(found) && forall x :: x in found ==> x.id == id
    ensures |found| <= 1
  {
    FirstTwoIn(found);
  }

  lemma FirstTwoIn<T>(s: seq<T>)
    ensures |s| >= 2 ==> s[0] in s && s[1] in s
  {
  }
}
