/** `analyzeCode` of the Groq service: reject a blank snippet, send the
    analysis prompt to the language model, strip a Markdown fence from the
    reply and parse it as JSON, falling back to a fixed degraded record when
    the reply cannot be read. The model call and `JSON.parse` are the
    oracles `complete` and `parse`. */
module Analysis {
  import opened Values
  import opened Strings
  import opened Prompts

  const EmptyCode: string := "Code snippet cannot be empty"
  const NoResponse: string := "No response from Groq"
  /** The TypeError raised by `choices[0].message.content` when the first
      choice carries no message. */
  const NoMessage: string := "Cannot read properties of undefined (reading 'content')"

  const Fence: string := "```"
  const JsonFence: string := "```json"

  /** One entry of `response.choices`: without a `message`, or with a message
      whose `content` is a string or `null`. */
  datatype Choice = Silent | Message(content: Option<string>)

  /** What the completion call gives back: an error it throws, or the list of
      choices (a reply without `choices` has an empty list). */
  datatype Completion = Failed(error: string) | Replied(choices: seq<Choice>)

  /** The outcome of `analyzeCode`: `{ analysis }`, or the message of the
      error it throws. */
  datatype Outcome = Analyzed(analysis: Json) | Thrown(message: string)

  /** A reply that reaches the parsing step: a first choice that has a
      message. */
  predicate Answered(c: Completion) {
    c.Replied? && |c.choices| > 0 && c.choices[0].Message?
  }

  /** `if (s.startsWith(fence)) s = s.substring(fence.length)`: what is left
      is a suffix of `s`. */
  function StripLeading(s: string, fence: string): (r: string)
    ensures |r| <= |s| && r == s[|s| - |r|..]
  {
    if StartsWith(s, fence) then s[|fence|..] else s
  }

  /** `if (s.endsWith('```')) s = s.substring(0, s.length - 3)`: what is
      left is a prefix of `s`. */
  function StripTrailing(s: string): (r: string)
    ensures |r| <= |s| && r == s[..|r|]
  {
    if EndsWith(s, Fence) then s[..|s| - |Fence|] else s
  }

  /** The text handed to `JSON.parse`: trimmed, stripped of a leading
      "```json", then of a leading "```", then of a trailing "```", and
      trimmed again. */
  function CleanResponse(text: string): string {
    Trim(Unfence(Trim(text)))
  }

  /** The three strips of `cleanedText`, in the order they are made. */
  function Unfence(t: string): string {
    StripTrailing(StripLeading(StripLeading(t, JsonFence), Fence))
  }

  /** The record returned when the reply cannot be parsed. */
  const Degraded: Json := Obj(map[
    "summary" := Str("Unable to parse AI response. Please try again."),
    "score" := Num(0),
    "issues" := Arr([]),
    "error" := Str("JSON parsing failed")])

  /** The inner `try` of `analyzeCode`: a `null` content fails at `trim` and a
      text that does not parse fails at `JSON.parse`; both give the degraded
      record, and a parsed value is returned unchanged. */
  function Interpret(content: Option<string>, parse: string -> Option<Json>): (r: Json)
    ensures content.Some? && parse(CleanResponse(content.value)).Some? ==>
              r == parse(CleanResponse(content.value)).value
    ensures content.None? || parse(CleanResponse(content.value)).None? ==> r == Degraded
    ensures content.None? || parse(CleanResponse(content.value)).None? ==>
              r.Obj? && r.fields.Keys == {"summary", "score", "issues", "error"}
              && r.fields["score"] == Num(0) && r.fields["issues"] == Arr([])
              && r.fields["error"] == Str("JSON parsing failed")
  {
    match content
    case None => Degraded
    case Some(text) =>
      match parse(CleanResponse(text))
      case None => Degraded
      case Some(v) => v
  }

  /** `analyzeCode(code)`. */
  function AnalyzeCode(code: string, complete: string -> Completion, parse: string -> Option<Json>): (r: Outcome)
    ensures IsBlank(code) ==> r == Thrown(EmptyCode)
    ensures !IsBlank(code) ==> r == Respond(complete(BuildAnalysisPrompt(code)), parse)
  {
    if IsBlank(code) then Thrown(EmptyCode)
    else Respond(complete(BuildAnalysisPrompt(code)), parse)
  }

  /** What `analyzeCode` makes of the model's reply. */
  function Respond(reply: Completion, parse: string -> Option<Json>): (r: Outcome)
    ensures r.Analyzed? <==> Answered(reply)
    ensures r.Analyzed? ==> r.analysis == Interpret(reply.choices[0].content, parse)
    ensures reply == Replied([]) ==> r == Thrown(NoResponse)
    ensures reply.Failed? ==> r == Thrown(reply.error)
  {
    match reply
    case Failed(e) => Thrown(e)
    case Replied(choices) =>
      if |choices| == 0 then Thrown(NoResponse)
      else
        match choices[0]
        case Silent => Thrown(NoMessage)
        case Message(content) => Analyzed(Interpret(content, parse))
  }

  /** When the model's reply parses, `analyzeCode` returns the parsed value
      as it is, whatever its shape. */
  lemma ParsedUnchanged(code: string, complete: string -> Completion, parse: string -> Option<Json>, v: Json)
    requires !IsBlank(code) && Answered(complete(BuildAnalysisPrompt(code)))
    requires var c := complete(BuildAnalysisPrompt(code)).choices[0].content;
             c.Some? && parse(CleanResponse(c.value)) == Some(v)
    ensures AnalyzeCode(code, complete, parse) == Analyzed(v)
  {
  }

  /** A reply whose content is `null` or does not parse gives the degraded
      record rather than an error. */
  lemma UnreadableDegrades(code: string, complete: string -> Completion, parse: string -> Option<Json>)
    requires !IsBlank(code) && Answered(complete(BuildAnalysisPrompt(code)))
    requires var c := complete(BuildAnalysisPrompt(code)).choices[0].content;
             c.None? || parse(CleanResponse(c.value)).None?
    ensures AnalyzeCode(code, complete, parse) == Analyzed(Degraded)
    ensures "positives" !in Degraded.fields
  {
  }

  /** The strips remove a piece from each end and nothing in between. */
  lemma UnfenceSlice(t: string) returns (b: nat, e: nat)
    ensures b <= e <= |t| && Unfence(t) == t[b..e]
  {
    var t2 := StripLeading(StripLeading(t, JsonFence), Fence);
    b := |t| - |t2|;
    assert t2 == t[b..];
    var t3 := StripTrailing(t2);
    e := b + |t3|;
    assert t3 == t[b..e];
  }

  /** Cleaning only cuts away: the cleaned text is a contiguous piece of the
      trimmed reply, so it is never longer. */
  lemma CleanSlice(text: string) returns (i: nat, j: nat)
    ensures i <= j <= |Trim(text)| && CleanResponse(text) == Trim(text)[i..j]
  {
    var t := Trim(text);
    var b, e := UnfenceSlice(t);
    var u := Unfence(t);
    assert |u| == e - b;
    var k, l := TrimPiece(u);
    i, j := b + k, b + l;
    SliceOfSlice(t, b, e, k, l, i, j);
  }

  /** A reply without fences at either end is only trimmed. */
  lemma CleanPlain(text: string)
    requires !StartsWith(Trim(text), Fence) && !EndsWith(Trim(text), Fence)
    ensures CleanResponse(text) == Trim(text)
  {
    var t := Trim(text);
    NoJsonFence(t);
    assert Unfence(t) == t;
    TrimIdempotent(text);
  }

  lemma NoJsonFence(t: string)
    requires !StartsWith(t, Fence)
    ensures !StartsWith(t, JsonFence)
  {
    assert |t| >= 7 ==> t[..7][..3] == t[..3];
  }

  /** A text whose first and last characters are not backticks neither
      starts nor ends with a fence. */
  lemma NoFenceAtEnds(j: string)
    requires j != [] && j[0] != '`' && j[|j| - 1] != '`'
    ensures !StartsWith(j, Fence) && !EndsWith(j, Fence)
  {
    assert |j| >= 3 ==> j[..3][0] == j[0] && j[|j| - 3..][2] == j[|j| - 1];
  }

  lemma StripLeadingOf(fence: string, y: string)
    ensures StripLeading(fence + y, fence) == y
  {
    assert (fence + y)[..|fence|] == fence;
  }

  lemma StripLeadingNot(s: string, fence: string, n: nat)
    requires n < |s| && n < |fence| && s[n] != fence[n]
    ensures StripLeading(s, fence) == s
  {
    assert |fence| <= |s| ==> s[..|fence|][n] == s[n];
  }

  lemma StripTrailingOf(y: string)
    ensures StripTrailing(y + Fence) == y
  {
    assert (y + Fence)[|y|..] == Fence;
  }

  /** The strips take a code block apart: the opening fence, the trailing
      fence, and nothing of what lies between. */
  lemma UnfenceBlock(fence: string, a: string, j: string, b: string)
    requires fence == JsonFence || (fence == Fence && a != [])
    requires IsBlank(a) && j != [] && j[0] != '`'
    ensures Unfence(fence + (a + j + b + Fence)) == a + j + b
  {
    var inner := a + j + b + Fence;
    assert inner == (a + j + b) + Fence;
    assert inner[0] == if a == [] then j[0] else a[0];
    if fence == JsonFence {
      StripLeadingOf(JsonFence, inner);
    } else {
      assert (Fence + inner)[3] == a[0];
      StripLeadingNot(Fence + inner, JsonFence, 3);
      StripLeadingOf(Fence, inner);
    }
    StripLeadingNot(inner, Fence, 0);
    StripTrailingOf(a + j + b);
  }

  /** A JSON text `j` inside a Markdown code block, "```json" or a bare
      "```" followed by a line break, with any white space around it and
      around the block, is recovered exactly. */
  lemma CleanFenced(p: string, fence: string, a: string, j: string, b: string, q: string)
    requires fence == JsonFence || (fence == Fence && a != [])
    requires IsBlank(p) && IsBlank(a) && IsBlank(b) && IsBlank(q)
    requires IsTrimmed(j) && j != [] && j[0] != '`'
    ensures CleanResponse(p + fence + a + j + b + Fence + q) == j
  {
    var x := fence + (a + j + b + Fence);
    assert x[0] == '`' && x[|x| - 1] == '`';
    assert p + fence + a + j + b + Fence + q == p + x + q;
    TrimPadded(p, x, q);
    UnfenceBlock(fence, a, j, b);
    TrimPadded(a, j, b);
  }

  /** Both leading strips apply one after the other, so a reply opening with
      "```json```" loses both before the trailing fence is looked at. */
  lemma CleanDoubleFence(x: string)
    requires x == [] || !IsSpace(x[|x| - 1])
    ensures CleanResponse(JsonFence + Fence + x) == Trim(StripTrailing(x))
  {
    var s := JsonFence + (Fence + x);
    assert JsonFence + Fence + x == s;
    assert s[0] == JsonFence[0] == '`';
    assert s[|s| - 1] == (if x == [] then '`' else x[|x| - 1]);
    TrimTrimmed(s);
    StripLeadingOf(JsonFence, Fence + x);
    StripLeadingOf(Fence, x);
  }

  /** Wrapping the model's JSON in a code block does not change what
      `analyzeCode` returns. */
  lemma FenceIgnored(p: string, fence: string, a: string, j: string, b: string, q: string,
                     parse: string -> Option<Json>)
    requires fence == JsonFence || (fence == Fence && a != [])
    requires IsBlank(p) && IsBlank(a) && IsBlank(b) && IsBlank(q)
    requires IsTrimmed(j) && j != [] && j[0] != '`' && j[|j| - 1] != '`'
    ensures Interpret(Some(p + fence + a + j + b + Fence + q), parse) == Interpret(Some(j), parse)
  {
    var w := p + fence + a + j + b + Fence + q;
    CleanFenced(p, fence, a, j, b, q);
    TrimTrimmed(j);
    NoFenceAtEnds(j);
    CleanPlain(j);
    SameCleanSameResult(w, j, parse);
  }

  lemma SameCleanSameResult(x: string, y: string, parse: string -> Option<Json>)
    requires CleanResponse(x) == CleanResponse(y)
    ensures Interpret(Some(x), parse) == Interpret(Some(y), parse)
  {
  }
}
