# Reply helper for a social-media post: a Dafny model

The program logs into a social-media site in a browser, opens the newest post
on a profile, reads the post's text and its first reply, asks a language-model
API for three reply drafts, and shows a desktop window in which a person picks
one draft to post as a reply (or declines). Almost all of it drives external
systems: the browser driver, the GUI toolkit and an HTTP API. This project
models the logic the program owns, all of it in `browse.py`:

- **Suggestion parsing** (`PyText`, `Suggestions`): the model's reply text is
  split on `'\n'`, each line is stripped with Python's `str.strip()`, blank
  lines are dropped and the first three are kept. `PyText` gives `strip()`
  (over the exact set of characters Python's `str.isspace()` accepts) and
  `split('\n')`, each proved against an independent description (`strip`
  removes exactly the surrounding whitespace; `split` is undone by `join`).
  `Suggestions` gives the parse, the shape checks on the decoded JSON reply
  (`Json` datatype), and how each transport outcome ends.
- **Selection rules** (`Extraction`): the page is abstracted as a sequence of
  post views (what the page shows after clicking each post element); only the
  first is opened; the main text falls back to `"No original post found"`; the
  reply is the text of reply container index 1, or the sentinel
  `"no replies"` when there are fewer than two containers; a container 1
  without a text node raises. The guard in `main` (`post_url and
  original_post`) is `ProceedsToGeneration`.
- **Review window** (`Review`): the column `init_ui` lays out, and the class
  `TweetResponder` whose fields are the live page (reply-button count plus the
  history of actions performed on it) and the closed flag. "Use This Reply"
  needs two reply buttons, clicks the one at index 1, fills the composer with
  exactly the suggestion, sends and then closes; any raising driver call
  leaves the window open. "No Response" closes without touching the page.
- **Run** (`Workflow`): extraction, the guard, generation and the window's
  inputs, as `main` sequences them.

Calls into the browser and the HTTP client are parameters: the page content
is a `PostView` sequence, the review page is a `Page` value, the driver call
that raises (if any) is `fault: Option<Step>`, and the HTTP outcome is a
`Transport` value.

Where the code does not do what it evidently intends (its handlers' `return []`, its comments), the model follows the code:

- A transport error (`requests.post` raising) does not give `[]`: the handler
  reads `response`, which was never bound, and raises UnboundLocalError (see
  Findings).
- Zero post elements give `(None, None, None)` only in the branch at
  browse.py:267-269; the `wait_for_selector` just before it (browse.py:239)
  would raise first on a page without posts. The model follows the branch and
  leaves the wait out.
- A reply container at index 1 without a text node raises rather than giving a
  sentinel (`ReplyTextMissing`); `main` catches it and the run ends.
- A missing main text does not stop generation: the placeholder is non-empty,
  so the guard passes and the placeholder is what the prompt is built from.
  An empty main text (`""`) does stop it.
- The notice shown for the sentinel reads "No replies yet", and a real reply
  whose text is exactly `no replies` is shown as that notice too.

## Model

| member | source | states |
|---|---|---|
| PyText.IsSpace | browse.py:182 | the whitespace `strip()` removes (Python's `str.isspace`) includes space, tab, newline and carriage return, and excludes digits and ASCII letters |
| PyText.SkipSpace | browse.py:182 | the forward scan of `strip()` stops at the first non-whitespace index, or at the end, having passed only whitespace |
| PyText.SkipSpaceBack | browse.py:182 | the backward scan of `strip()` stops just after the last non-whitespace character above its lower bound, having passed only whitespace |
| PyText.Strip | browse.py:182 | `line.strip()` neither starts nor ends with a Python whitespace character |
| PyText.StripSlices | browse.py:182 | `line.strip()` is the slice of the line between an all-whitespace prefix and an all-whitespace suffix |
| PyText.StripBlankIff | browse.py:182 | `line.strip()` is empty (falsy in the comprehension's `if`) exactly when the line is all whitespace |
| PyText.StripRemovesExactlySurroundingSpace | browse.py:182 | whitespace around a stripped core strips back to exactly that core (independent description of `strip()`) |
| PyText.StripIdempotent | browse.py:182 | stripping a stripped line changes nothing |
| PyText.StripKeepsOut | browse.py:182 | a character absent from a line is absent from the stripped line |
| PyText.Split | browse.py:182 | `text.split('\n')` gives at least one piece and no piece contains `'\n'` |
| PyText.JoinSplit | browse.py:182 | joining the pieces of `text.split('\n')` with `'\n'` gives back `text` |
| PyText.SplitJoin | browse.py:182 | pieces without `'\n'` joined with `'\n'` split back into exactly those pieces |
| PyText.SplitAppend | browse.py:182 | splitting `a + '\n' + b` splits `a` and `b` separately and concatenates the pieces |
| PyText.SplitWithoutSeparator | browse.py:182 | a text without `'\n'` splits into itself alone |
| Suggestions.KeepNonEmpty | browse.py:182 | the comprehension `[f(line) for line in lines if f(line)]` (with `f` = `strip`, `NonBlankStripped`) keeps no more entries than there are lines; that each entry kept by the `strip` instance is non-empty and stripped is `NonBlankStrippedShape` |
| Suggestions.KeepNonEmptyMembers | browse.py:182 | a string is kept by the comprehension exactly when it is non-empty and the image (for `strip`, the stripped form) of some line |
| Suggestions.KeepNonEmptyAppend | browse.py:182 | the comprehension over concatenated lines is the concatenation of the two results, so order is preserved |
| Suggestions.NonBlankStrippedShape | browse.py:182 | every entry the comprehension keeps is non-empty and stripped, and contains no character that no line contains |
| Suggestions.KeepNonEmptyOfFixedPoints | browse.py:182 | lines that are non-empty and unchanged by `f` pass through the comprehension unchanged |
| Suggestions.NonBlankStrippedOfSuggestions | browse.py:182 | lines that are already non-empty and stripped pass through the comprehension unchanged |
| Suggestions.Take | browse.py:183 | `suggestions[:3]`: a prefix of the list, the whole list when it is short enough, and exactly `n` entries otherwise |
| Suggestions.ParseSuggestions | browse.py:182-183 | the parsed list has at most 3 entries, each non-empty, without leading or trailing whitespace and on one line |
| Suggestions.ParsedComeFromLines | browse.py:182-183 | every suggestion is the stripped form of some line of the text |
| Suggestions.ParseAcrossNewline | browse.py:182-183 | the text on either side of a newline is filtered independently, left side first, then cut to three |
| Suggestions.BlankLineKeepsNothing | browse.py:182 | a whitespace-only line contributes nothing to the comprehension |
| Suggestions.BlankLineIgnored | browse.py:182 | removing a whitespace-only line that sits between two newlines leaves the suggestions unchanged |
| Suggestions.LeadingBlankLineIgnored | browse.py:182 | removing a whitespace-only first line leaves the suggestions unchanged |
| Suggestions.TrailingBlankLineIgnored | browse.py:182 | removing a whitespace-only last line leaves the suggestions unchanged |
| Suggestions.TailIgnoredAfterThree | browse.py:183 | once the text has three non-blank lines, anything appended after them is ignored |
| Suggestions.ParseOneSuggestionPerLine | browse.py:182-183 | up to three suggestions written one per line parse back to exactly those suggestions in order |
| Suggestions.BlankSecondLineDropped | browse.py:182 | an empty second line between one-line suggestions is dropped, the others kept in order |
| Suggestions.BlankDroppedFourthCut | browse.py:182-183 | four one-line suggestions with an empty line after the first parse to the first three, the empty line dropped |
| Suggestions.ParseExample | browse.py:182-183 | `"A\n\nB\nC\nD"` parses to `["A","B","C"]` |
| Suggestions.Truthy | browse.py:180 | a decoded JSON value is falsy exactly when it is `null`, `false`, zero, `""`, `[]` or `{}` |
| Suggestions.Get | browse.py:179-181 | `dict.get(key, default)`: the stored value when the key is present, the default otherwise |
| Suggestions.IsHttpError | browse.py:177 | `raise_for_status()` raises for 4xx and 5xx statuses such as 404, 429, 500 and 503, and never for a 2xx status |
| Suggestions.CheckShape | browse.py:179-186 | on any decoded response, a parsed result has at most 3 stripped, non-empty suggestions |
| Suggestions.WellShapedParses | browse.py:179-183 | the response parses exactly when it is an object whose `content` is a non-empty list whose first item is an object with a string `text` (default `''`), and then the result is the parse of that text |
| Suggestions.MalformedShapes | browse.py:179-186 | missing `content`, an empty `content` list, or a first item that is not an object all take the unexpected-structure branch |
| Suggestions.MissingTextGivesNone | browse.py:181-183 | a first item without `text` parses `''` and gives no suggestions |
| Suggestions.GenerateRepliesAsWritten | browse.py:175-195 | as written, the generator raises exactly when `requests.post` raised, and otherwise returns at most 3 suggestions |
| Suggestions.PostFailureEscapes | browse.py:176-189 | a raising `requests.post` makes the generator raise UnboundLocalError instead of returning `[]` |
| Suggestions.GenerateReplies | browse.py:175-195 | the generator as intended: at most 3 suggestions, and `[]` for a failed POST, a 4xx/5xx status or a body that is not JSON |
| Suggestions.GoodResponseParses | browse.py:175-183 | a 2xx/3xx JSON response whose `content` list starts with an object holding a string `text` yields the parse of that text, from both the written and the corrected generator |
| Suggestions.BadShapeGivesNone | browse.py:179-186 | a 2xx/3xx JSON response of any other shape yields no suggestions, from both generators |
| Suggestions.GenerateRepliesAgrees | browse.py:175-195 | the intended generator returns what the written one returns wherever the written one does not raise |
| Extraction.MostRecent | browse.py:242-269 | no post elements give `(None, None, None)`; a found post carries the first post's URL; the extraction raises exactly when reply container 1 exists without a text node |
| Extraction.OnlyFirstPostRead | browse.py:242-243 | only the first post element in document order affects the result |
| Extraction.OriginalTextRule | browse.py:253-254 | the original text is the main text node's text, or `"No original post found"` when there is none |
| Extraction.ReplyRule | browse.py:257-263 | with 0 or 1 reply containers the reply is `"no replies"`; with 2 or more it is container 1's text, or the extraction raises when that container has no text node |
| Extraction.ReplyReadsOnlyIndexOne | browse.py:259-260 | container 0 and containers after index 1 never affect the result |
| Extraction.ProceedsToGeneration | browse.py:294 | the guard only passes for a found post with a non-empty text, and passes for a found post with a URL whose main text was missing (the placeholder is non-empty) |
| Extraction.GenerationGuard | browse.py:294 | generation runs exactly when a post exists, its URL is non-empty and its main text is not the empty string; a missing main text still generates |
| Review.Layout | browse.py:82-117 | the column starts with the "Original Tweet:" caption, the post's frame and the "Reply:" caption, has the "Suggested Replies:" caption at position 4 when there are suggestions, ends with the "No Response" button, and has 5 entries without suggestions and 6 plus one per suggestion with them |
| Review.HeaderHasNoButtons | browse.py:82-95 | the captions and frames above the suggestions hold no button |
| Review.SuggestionSectionButtons | browse.py:97-112 | the suggestions section holds one "Use This Reply" button per suggestion, in order, and no "No Response" button |
| Review.LayoutButtons | browse.py:98-117 | the window has exactly one "No Response" button and one "Use This Reply" button per suggestion, bound to the suggestions in order |
| Review.PanelPosition | browse.py:97-112 | the k-th suggestion's panel comes right after the "Suggested Replies:" caption, at position 5 + k |
| Review.NoRepliesNotice | browse.py:88-95 | "No replies yet" is shown exactly when the reply equals the sentinel `"no replies"`; otherwise the reply's text is shown |
| Review.UseReplyReaction | browse.py:124-149 | the model's page keeps its reply-button count (the page's reaction to the clicks is not modelled); the window closes exactly when "Reply Sent" is shown, and otherwise "Failed to post reply" is shown |
| Review.UseReplyNeedsTwoButtons | browse.py:127-149 | with fewer than two reply buttons "Use" fails with the "couldn't find the reply button" error (unless the button lookup itself raised), the window stays open and the page is untouched |
| Review.UseReplyClosesOnlyAfterSend | browse.py:127-147 | the window closes exactly when there are two reply buttons and no driver call raised, and then the page saw button 1 clicked, the composer filled with exactly the suggestion, and send clicked |
| Review.UseReplyAppendsSubmitPrefix | browse.py:124-149 | every attempt only appends a beginning of click-button-1, fill-suggestion, send to the page; send is among them exactly when the window closes; button 0 is never clicked |
| Review.TweetResponder.constructor | browse.py:43-73 | the window keeps the post, reply, suggestions and page, lays out the column of `init_ui`, and starts open |
| Review.TweetResponder.UseReply | browse.py:124-149 | the new page, closed flag and notice are those of the "Use" rule; the window is then Done when closed and Idle otherwise |
| Review.TweetResponder.NoResponse | browse.py:151-153 | the window closes as Declined and the page is unchanged |
| Review.TweetResponder.Press | browse.py:108-116 | a suggestion panel's button runs "Use" with that panel's suggestion; the "No Response" button declines |
| Workflow.Run | browse.py:286-315 | no post elements end the run without generation; an extraction that raises ends it in the error handler; the window opens exactly when extraction succeeds and the guard passes, and it then shows the extracted original text and reply and the generator's suggestions (at most 3) |
| Workflow.NoGenerationWithoutPost | browse.py:294-311 | when the guard fails, the generator is not consulted, in the run as written and in the corrected run alike, and the run ends as "couldn't retrieve" |
| Workflow.FailedGenerationStillReviews | browse.py:300-309 | a 4xx/5xx status still opens the window, with no suggestions, in the run as written and in the corrected run alike |
| Workflow.CorrectedPostFailureStillReviews | browse.py:300-309 | with the corrected generator, a raising `requests.post` also opens the window, with no suggestions |
| Workflow.RunAsWritten | browse.py:286-315 | with the generator as written, the run ends in the error handler exactly when the extraction fails or the guard passes and `requests.post` raises; for every other transport outcome, and whenever the guard fails, it is the corrected run |
| Workflow.PostFailureEndsRunAsWritten | browse.py:176-189 | as written, a raising `requests.post` after a passing guard ends the run in `main`'s error handler, and no window opens |

## Left out

- Logging in, navigating, scrolling, `wait_for_selector` and `wait_for_timeout` waits and their timeouts, screenshots and closing the browser (browse.py:197-240, 279-289, 312-317): browser I/O through a foreign driver. The page is plain data instead.
- The HTTP POST itself, its headers, the API key read from the environment, the request payload and the prompt text of browse.py:299 (browse.py:155-177): network I/O. Only the outcome (`Transport`) and the parse of the decoded reply are modelled.
- Which handler prints what (browse.py:185, 188-191, 194) and every other `print`: operator log output; only the returned list is modelled.
- Qt layout, styling, `TweetFrame.sizeHint`, icons and message-box rendering (browse.py:12-40, 49-72, 119-122): UI rendering and floating-point geometry. Which message box is shown is kept, as `Notice`.
- The Qt event loop and the process exit (browse.py:306-309): the window is modelled from construction to its first closing action.
- `save_to_file` (browse.py:271-276): filesystem I/O, and unused.
- `USERNAME` and `PASSWORD` (browse.py:207, 218, 230-231): they are never defined in the file; the model assumes the login and profile navigation succeed.
- The extraction's own driver calls (the click at browse.py:245, `inner_text` at browse.py:254 and the `query_selector_all` at browse.py:257) are taken never to raise; only the missing text node of reply container 1 (browse.py:260) raises. Workflow.Run's "ends in the error handler exactly when the extraction fails" holds under that assumption.
- A driver call that raises is taken to have had no effect on the page; how the live page reacts to the clicks (the composer appearing, the reply being published) is not modelled beyond the history of actions.
- JSON numbers are modelled as `real`; only their truthiness matters to the shape checks.
- Workflow.Run: uses the corrected generator (`GenerateReplies`); with the generator as written, a raising `requests.post` ends the run in the error handler instead (`RunAsWritten`, `PostFailureEndsRunAsWritten`).

## Findings

| source | as written | input that shows it | evidently intended | confidence | as-written member | corrected member |
|---|---|---|---|---|---|---|
| browse.py:176-192 | `response` is assigned only when `requests.post` returns, yet the `RequestException` handler tests `if response:`; when the POST itself raises, that test raises UnboundLocalError, which the sibling `except Exception` clause does not catch, so the exception leaves `generate_claude_replies` | `requests.post` raising a connection error (`PostRaised`) | log the failure and return `[]`, as for every other failure of the call | high (follows from Python's scoping of locals); not executed | Suggestions.GenerateRepliesAsWritten, Suggestions.PostFailureEscapes | Suggestions.GenerateReplies, Suggestions.GenerateRepliesAgrees |
