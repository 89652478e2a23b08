/**
 * The suggestion generator (`generate_claude_replies`) without its HTTP call:
 * the parse of the model's reply text into at most three suggestions, the
 * shape checks on the decoded JSON response, and how transport outcomes
 * degrade to an empty list.
 */
module Suggestions {
  import opened Wrappers
  import opened PyText

  /** At most this many suggestions are kept (`suggestions[:3]`). */
  const MaxSuggestions := 3

  /** A suggestion as the parser produces it: non-empty, stripped, on one line. */
  predicate IsSuggestion(s: string) {
    s != [] && IsStripped(s) && '\n' !in s
  }

  /**
   * `[f(line) for line in lines if f(line)]`: each line mapped by `f`, the
   * empty results dropped, order kept.
   */
  function KeepNonEmpty(f: string -> string, lines: seq<string>): (kept: seq<string>)
    ensures |kept| <= |lines|
  {
    if lines == [] then []
    else
      var t := f(lines[0]);
      (if t != [] then [t] else []) + KeepNonEmpty(f, lines[1..])
  }

  /** `[line.strip() for line in lines if line.strip()]`. */
  function NonBlankStripped(lines: seq<string>): seq<string> {
    KeepNonEmpty(Strip, lines)
  }

  /** Filtering a concatenation filters each side, in order. */
  lemma {:induction false} KeepNonEmptyAppend(f: string -> string, a: seq<string>, b: seq<string>)
    ensures KeepNonEmpty(f, a + b) == KeepNonEmpty(f, a) + KeepNonEmpty(f, b)
    decreases |a|
  {
    if a != [] {
      assert (a + b)[0] == a[0];
      assert (a + b)[1..] == a[1..] + b;
      KeepNonEmptyAppend(f, a[1..], b);
    } else {
      assert a + b == b;
    }
  }

  /** What is kept is exactly the non-empty images of the lines. */
  lemma {:induction false} KeepNonEmptyMembers(f: string -> string, lines: seq<string>, x: string)
    ensures x in KeepNonEmpty(f, lines)
            <==> x != [] && exists i :: 0 <= i < |lines| && f(lines[i]) == x
    decreases |lines|
  {
    if lines != [] {
      var t := f(lines[0]);
      var rest := KeepNonEmpty(f, lines[1..]);
      assert KeepNonEmpty(f, lines) == (if t != [] then [t] else []) + rest;
      KeepNonEmptyMembers(f, lines[1..], x);
      if x in KeepNonEmpty(f, lines) {
        if x in rest {
          var i :| 0 <= i < |lines[1..]| && f(lines[1..][i]) == x;
          assert lines[1..][i] == lines[i + 1];
        } else {
          assert x == t && t != [];
          assert f(lines[0]) == x;
        }
      }
      if x != [] && exists i :: 0 <= i < |lines| && f(lines[i]) == x {
        var i :| 0 <= i < |lines| && f(lines[i]) == x;
        if i == 0 {
          assert x == t;
        } else {
          assert lines[1..][i - 1] == lines[i];
          assert x in rest;
        }
      }
    }
  }

  /** Lines that are non-empty fixed points of `f` pass through unchanged. */
  lemma {:induction false} KeepNonEmptyOfFixedPoints(f: string -> string, xs: seq<string>)
    requires forall k :: 0 <= k < |xs| ==> xs[k] != [] && f(xs[k]) == xs[k]
    ensures KeepNonEmpty(f, xs) == xs
    decreases |xs|
  {
    if xs != [] {
      KeepNonEmptyOfFixedPoints(f, xs[1..]);
      assert xs == [xs[0]] + xs[1..];
    }
  }

  /**
   * Every line the comprehension keeps is non-empty and stripped, and free of
   * any character absent from all the lines.
   */
  lemma NonBlankStrippedShape(lines: seq<string>, c: char)
    requires forall i :: 0 <= i < |lines| ==> c !in lines[i]
    ensures forall k :: 0 <= k < |NonBlankStripped(lines)| ==>
              NonBlankStripped(lines)[k] != [] && IsStripped(NonBlankStripped(lines)[k])
              && c !in NonBlankStripped(lines)[k]
  {
    var kept := NonBlankStripped(lines);
    forall k | 0 <= k < |kept|
      ensures kept[k] != [] && IsStripped(kept[k]) && c !in kept[k]
    {
      KeepNonEmptyMembers(Strip, lines, kept[k]);
      var i :| 0 <= i < |lines| && Strip(lines[i]) == kept[k];
      StripKeepsOut(lines[i], c);
    }
  }

  /** `s[:n]` in Python: the first `min(n, |s|)` elements. */
  function Take<T>(s: seq<T>, n: nat): (r: seq<T>)
    ensures |r| <= n && r <= s
    ensures |s| <= n ==> r == s
    ensures |s| > n ==> |r| == n
  {
    if |s| <= n then s else s[..n]
  }

  lemma TakeAppend<T>(x: seq<T>, y: seq<T>, n: nat)
    requires |x| >= n
    ensures Take(x + y, n) == Take(x, n)
  {
    assert (x + y)[..n] == x[..n];
  }

  /**
   * The parse of `content[0]['text']` at browse.py:182-183: split on '\n',
   * strip each line, drop blank ones, keep the first three.
   */
  function ParseSuggestions(text: string): (r: seq<string>)
    ensures |r| <= MaxSuggestions
    ensures forall k :: 0 <= k < |r| ==> IsSuggestion(r[k])
  {
    var lines := Split(text, '\n');
    var kept := NonBlankStripped(lines);
    NonBlankStrippedShape(lines, '\n');
    Take(kept, MaxSuggestions)
  }

  /** Every suggestion is the stripped form of some line of the text, and of a non-blank one. */
  lemma ParsedComeFromLines(text: string, k: nat)
    requires k < |ParseSuggestions(text)|
    ensures exists i :: 0 <= i < |Split(text, '\n')| && Strip(Split(text, '\n')[i]) == ParseSuggestions(text)[k]
  {
    var kept := NonBlankStripped(Split(text, '\n'));
    assert ParseSuggestions(text)[k] == kept[k];
    KeepNonEmptyMembers(Strip, Split(text, '\n'), kept[k]);
  }

  /** Cutting the text at one newline parses the two sides separately, then keeps three. */
  lemma ParseAcrossNewline(before: string, after: string)
    ensures var kept := NonBlankStripped(Split(before, '\n')) + NonBlankStripped(Split(after, '\n'));
            ParseSuggestions(before + "\n" + after) == Take(kept, MaxSuggestions)
  {
    var nl := '\n';
    assert before + "\n" + after == before + [nl] + after;
    SplitAppend(before, after, nl);
    KeepNonEmptyAppend(Strip, Split(before, nl), Split(after, nl));
  }

  /** A whitespace-only line contributes nothing to the comprehension. */
  lemma BlankLineKeepsNothing(blank: string)
    requires AllSpace(blank)
    ensures NonBlankStripped([blank]) == []
  {
    StripBlankIff(blank);
    assert [blank][1..] == [];
  }

  /**
   * A whitespace-only line between two newlines makes no difference:
   * removing it leaves the suggestions unchanged.
   */
  lemma BlankLineIgnored(before: string, blank: string, after: string)
    requires AllSpace(blank) && '\n' !in blank
    ensures ParseSuggestions(before + "\n" + blank + "\n" + after) == ParseSuggestions(before + "\n" + after)
  {
    var nl := '\n';
    var rest := blank + "\n" + after;
    assert before + "\n" + blank + "\n" + after == before + "\n" + rest;
    ParseAcrossNewline(before, rest);
    ParseAcrossNewline(before, after);
    assert NonBlankStripped(Split(rest, nl)) == NonBlankStripped(Split(after, nl)) by {
      assert rest == blank + [nl] + after;
      SplitAppend(blank, after, nl);
      SplitWithoutSeparator(blank, nl);
      BlankLineKeepsNothing(blank);
      KeepNonEmptyAppend(Strip, [blank], Split(after, nl));
    }
  }

  /** A whitespace-only first line makes no difference. */
  lemma LeadingBlankLineIgnored(blank: string, after: string)
    requires AllSpace(blank) && '\n' !in blank
    ensures ParseSuggestions(blank + "\n" + after) == ParseSuggestions(after)
  {
    ParseAcrossNewline(blank, after);
    SplitWithoutSeparator(blank, '\n');
    BlankLineKeepsNothing(blank);
    assert [] + NonBlankStripped(Split(after, '\n')) == NonBlankStripped(Split(after, '\n'));
  }

  /** A whitespace-only last line makes no difference. */
  lemma TrailingBlankLineIgnored(before: string, blank: string)
    requires AllSpace(blank) && '\n' !in blank
    ensures ParseSuggestions(before + "\n" + blank) == ParseSuggestions(before)
  {
    ParseAcrossNewline(before, blank);
    SplitWithoutSeparator(blank, '\n');
    BlankLineKeepsNothing(blank);
    assert NonBlankStripped(Split(before, '\n')) + [] == NonBlankStripped(Split(before, '\n'));
  }

  /** Once three suggestions have been found, nothing later in the text matters. */
  lemma TailIgnoredAfterThree(before: string, after: string)
    requires |NonBlankStripped(Split(before, '\n'))| >= MaxSuggestions
    ensures ParseSuggestions(before + "\n" + after) == ParseSuggestions(before)
  {
    ParseAcrossNewline(before, after);
    var x := NonBlankStripped(Split(before, '\n'));
    var y := NonBlankStripped(Split(after, '\n'));
    TakeAppend(x, y, MaxSuggestions);
  }

  lemma StripFixesSuggestion(x: string)
    requires IsSuggestion(x)
    ensures Strip(x) == x
  {
    assert [] + x + [] == x;
    StripRemovesExactlySurroundingSpace([], x, []);
  }

  /** `IsSuggestion` strings are fixed points of `strip()` and are kept by the filter. */
  lemma NonBlankStrippedOfSuggestions(xs: seq<string>)
    requires forall k :: 0 <= k < |xs| ==> IsSuggestion(xs[k])
    ensures NonBlankStripped(xs) == xs
  {
    forall k | 0 <= k < |xs|
      ensures xs[k] != [] && Strip(xs[k]) == xs[k]
    {
      StripFixesSuggestion(xs[k]);
    }
    KeepNonEmptyOfFixedPoints(Strip, xs);
  }


  /**
   * Round trip: up to three suggestions written one per line parse back to
   * exactly those suggestions, in the same order.
   */
  lemma ParseOneSuggestionPerLine(xs: seq<string>)
    requires |xs| <= MaxSuggestions
    requires forall k :: 0 <= k < |xs| ==> IsSuggestion(xs[k])
    ensures ParseSuggestions(Join(xs, '\n')) == xs
  {
    if xs == [] {
      assert Split(Join(xs, '\n'), '\n') == [[]];
      BlankLineKeepsNothing([]);
    } else {
      SplitJoin(xs, '\n');
      NonBlankStrippedOfSuggestions(xs);
    }
  }

  /**
   * Four one-line suggestions with an empty line after the first: the empty
   * line is dropped and the fourth is cut.
   */
  lemma BlankDroppedFourthCut(a: string, b: string, c: string, d: string)
    requires IsSuggestion(a) && IsSuggestion(b) && IsSuggestion(c) && IsSuggestion(d)
    ensures ParseSuggestions(Join([a, "", b, c, d], '\n')) == [a, b, c]
  {
    var lines: seq<string> := [a, "", b, c, d];
    SplitJoin(lines, '\n');
    BlankSecondLineDropped(a, [b, c, d]);
    assert [a] + ([""] + [b, c, d]) == lines;
    assert Take([a] + [b, c, d], MaxSuggestions) == [a, b, c];
  }

  /** An empty second line between suggestions is dropped by the comprehension. */
  lemma BlankSecondLineDropped(a: string, rest: seq<string>)
    requires IsSuggestion(a)
    requires forall k :: 0 <= k < |rest| ==> IsSuggestion(rest[k])
    ensures NonBlankStripped([a] + ([""] + rest)) == [a] + rest
  {
    NonBlankStrippedOfSuggestions([a]);
    NonBlankStrippedOfSuggestions(rest);
    BlankLineKeepsNothing("");
    KeepNonEmptyAppend(Strip, [""], rest);
    assert NonBlankStripped([""] + rest) == rest;
    KeepNonEmptyAppend(Strip, [a], [""] + rest);
  }

  /** The text of the worked example, one suggestion per line. */
  lemma ExampleText()
    ensures Join(["A", "", "B", "C", "D"], '\n') == "A\n\nB\nC\nD"
  {
    var lines: seq<string> := ["A", "", "B", "C", "D"];
    assert Join(lines[4..], '\n') == "D";
    assert Join(lines[3..], '\n') == "C\nD";
    assert Join(lines[2..], '\n') == "B\nC\nD";
    assert Join(lines[1..], '\n') == "\nB\nC\nD";
  }

  /** The worked example: blank lines dropped, then cut to three. */
  lemma ParseExample()
    ensures ParseSuggestions("A\n\nB\nC\nD") == ["A", "B", "C"]
  {
    ExampleText();
    BlankDroppedFourthCut("A", "B", "C", "D");
  }

  /** A decoded JSON value, as `response.json()` hands it to Python. */
  datatype Json =
    | JNull
    | JBool(b: bool)
    | JNumber(n: real)
    | JString(s: string)
    | JArray(items: seq<Json>)
    | JObject(fields: map<string, Json>)

  /** Python's `bool()` of a decoded JSON value. */
  predicate Truthy(j: Json): (b: bool)
    ensures !b <==> j in {JNull, JBool(false), JNumber(0.0), JString([]), JArray([]), JObject(map[])}
  {
    match j
    case JNull => false
    case JBool(b) => b
    case JNumber(n) => n != 0.0
    case JString(s) => s != []
    case JArray(items) => items != []
    case JObject(fields) => fields != map[]
  }

  /** `d.get(key, default)` on a JSON object. */
  function Get(fields: map<string, Json>, key: string, default: Json): (v: Json)
    ensures key in fields ==> v == fields[key]
    ensures key !in fields ==> v == default
  {
    if key in fields then fields[key] else default
  }

  /**
   * How the body of the try block ends on a decoded response: with the
   * parsed list, through the "Unexpected response structure" branch, or by
   * raising inside the block (AttributeError, KeyError, TypeError).
   */
  datatype ShapeOutcome = Parsed(suggestions: seq<string>) | UnexpectedStructure | RaisedInside

  /** The shape checks of browse.py:179-186 on the decoded response `result`. */
  function CheckShape(result: Json): (o: ShapeOutcome)
    ensures o.Parsed? ==> |o.suggestions| <= MaxSuggestions
    ensures o.Parsed? ==> forall k :: 0 <= k < |o.suggestions| ==> IsSuggestion(o.suggestions[k])
  {
    match result
    case JObject(fields) =>
      var content := Get(fields, "content", JArray([]));
      if !Truthy(content) then UnexpectedStructure
      else (
        match content
        case JArray(items) =>
          (match items[0]
           case JObject(first) =>
             (match Get(first, "text", JString([]))
              case JString(text) => Parsed(ParseSuggestions(text))
              case _ => RaisedInside)    // no `split` on a non-string
           case _ => UnexpectedStructure)
        case JString(_) => UnexpectedStructure  // `content[0]` is a one-character string
        case _ => RaisedInside)                 // KeyError on a dict, TypeError on a number or `True`
    case _ => RaisedInside                      // no `get` on a non-dict
  }

  /** The well-shaped case: `{"content": [{"text": t, ...}, ...], ...}` parses `t`. */
  lemma WellShapedParses(result: Json)
    ensures CheckShape(result).Parsed?
            <==> result.JObject? && "content" in result.fields
                 && result.fields["content"].JArray? && result.fields["content"].items != []
                 && result.fields["content"].items[0].JObject?
                 && Get(result.fields["content"].items[0].fields, "text", JString([])).JString?
    ensures CheckShape(result).Parsed? ==>
              CheckShape(result).suggestions
              == ParseSuggestions(Get(result.fields["content"].items[0].fields, "text", JString([])).s)
  {
    if result.JObject? {
      var content := Get(result.fields, "content", JArray([]));
      if content.JArray? && content.items != [] {
        assert Truthy(content);
      } else if content.JString? || content.JArray? {
        assert !CheckShape(result).Parsed?;
      }
    }
  }

  /** Missing or empty `content`, or a first item that is not an object: the unexpected-structure branch. */
  lemma MalformedShapes(fields: map<string, Json>)
    ensures "content" !in fields ==> CheckShape(JObject(fields)) == UnexpectedStructure
    ensures "content" in fields && fields["content"] == JArray([]) ==> CheckShape(JObject(fields)) == UnexpectedStructure
    ensures "content" in fields && fields["content"].JArray? && fields["content"].items != []
            && !fields["content"].items[0].JObject?
            ==> CheckShape(JObject(fields)) == UnexpectedStructure
  {
  }

  /** A first item without a `text` key parses `''`, which yields no suggestions. */
  lemma MissingTextGivesNone(first: map<string, Json>, rest: seq<Json>, others: map<string, Json>)
    requires "text" !in first
    ensures CheckShape(JObject(others["content" := JArray([JObject(first)] + rest)])) == Parsed([])
  {
    assert NonBlankStripped(Split([], '\n')) == [] by {
      StripBlankIff([]);
    }
  }

  /** The outcome of `requests.post(...)` as the handler sees it. */
  datatype Transport =
    | PostRaised                                  // `requests.post` itself raised a RequestException
    | Answered(status: int, body: Option<Json>)   // a response; `body` is None when it is not JSON

  /** `raise_for_status()` raises exactly for 4xx and 5xx statuses. */
  predicate IsHttpError(status: int): (b: bool)
    ensures b ==> status >= 400
    ensures status == 404 || status == 429 || status == 500 || status == 503 ==> b
    ensures 200 <= status < 300 ==> !b
  {
    400 <= status < 600
  }

  /** What escapes `generate_claude_replies` instead of a list. */
  datatype Escape = UnboundResponse   // UnboundLocalError from `if response:` at browse.py:189

  /**
   * `generate_claude_replies` as written (browse.py:175-195). When
   * `requests.post` raises, `response` was never bound, so the handler's
   * `if response:` raises UnboundLocalError, which the sibling
   * `except Exception` does not catch.
   */
  function GenerateRepliesAsWritten(t: Transport): (r: Result<seq<string>, Escape>)
    ensures r.Failure? <==> t.PostRaised?
    ensures r.Success? ==> |r.value| <= MaxSuggestions
  {
    match t
    case PostRaised => Failure(UnboundResponse)
    case Answered(status, body) =>
      if IsHttpError(status) then Success([])   // HTTPError; a 4xx/5xx response is falsy, so nothing else runs
      else if body.None? then Success([])       // the JSON decode error is caught by one of the two handlers
      else
        match CheckShape(body.value)
        case Parsed(suggestions) => Success(suggestions)
        case _ => Success([])
  }

  /** The failing case: a transport error escapes as an exception instead of giving `[]`. */
  lemma PostFailureEscapes()
    ensures GenerateRepliesAsWritten(PostRaised) == Failure(UnboundResponse)
  {
  }

  /**
   * `generate_claude_replies` as evidently intended: every failure, the
   * transport ones included, degrades to the empty list.
   */
  function GenerateReplies(t: Transport): (r: seq<string>)
    ensures |r| <= MaxSuggestions
    ensures forall k :: 0 <= k < |r| ==> IsSuggestion(r[k])
    ensures t.PostRaised? || (t.Answered? && (IsHttpError(t.status) || t.body.None?)) ==> r == []
  {
    match t
    case PostRaised => []
    case Answered(status, body) =>
      if IsHttpError(status) || body.None? then []
      else
        match CheckShape(body.value)
        case Parsed(suggestions) => suggestions
        case _ => []
  }

  /**
   * A successful JSON response whose first content item is an object with a
   * string `text` yields the parse of that text, from both generators.
   */
  lemma GoodResponseParses(status: int, fields: map<string, Json>, first: map<string, Json>,
                           rest: seq<Json>, text: string)
    requires !IsHttpError(status)
    requires "content" in fields && fields["content"] == JArray([JObject(first)] + rest)
    requires Get(first, "text", JString([])) == JString(text)
    ensures GenerateReplies(Answered(status, Some(JObject(fields)))) == ParseSuggestions(text)
    ensures GenerateRepliesAsWritten(Answered(status, Some(JObject(fields)))) == Success(ParseSuggestions(text))
  {
    WellShapedParses(JObject(fields));
  }

  /** A successful JSON response of any other shape yields no suggestions, from both generators. */
  lemma BadShapeGivesNone(status: int, result: Json)
    requires !IsHttpError(status) && !CheckShape(result).Parsed?
    ensures GenerateReplies(Answered(status, Some(result))) == []
    ensures GenerateRepliesAsWritten(Answered(status, Some(result))) == Success([])
  {
  }

  /** The corrected generator differs from the written one only where the latter raises. */
  lemma GenerateRepliesAgrees(t: Transport)
    ensures GenerateRepliesAsWritten(t).Success? ==> GenerateRepliesAsWritten(t).value == GenerateReplies(t)
    ensures GenerateRepliesAsWritten(t).Failure? ==> GenerateReplies(t) == []
  {
  }
}
