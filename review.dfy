/**
 * The review window (`TweetResponder`): which widgets `init_ui` lays out for
 * a post, its reply and the suggestions, and what the "Use This Reply" and
 * "No Response" buttons do to the live page and to the window.
 */
module Review {
  import opened Wrappers
  import Extraction

  /**
   * One entry of the scrolling column, top to bottom. A suggestion panel
   * holds the suggestion's text and its own "Use This Reply" button, bound to
   * that suggestion (browse.py:109).
   */
  datatype Widget =
    | Caption(text: string)
    | TweetFrame(text: string)
    | SuggestionPanel(suggestion: string)
    | NoResponseButton

  function Panels(suggestions: seq<string>): (w: seq<Widget>)
    ensures |w| == |suggestions|
  {
    seq(|suggestions|, k requires 0 <= k < |suggestions| => SuggestionPanel(suggestions[k]))
  }

  /** The column `init_ui` builds (browse.py:82-117). */
  function Layout(original: string, reply: string, suggestions: seq<string>): (w: seq<Widget>)
    ensures |w| == if suggestions == [] then 5 else 6 + |suggestions|
    ensures w[..3] == [Caption("Original Tweet:"), TweetFrame(original), Caption("Reply:")]
    ensures suggestions != [] ==> w[4] == Caption("Suggested Replies:")
    ensures w[|w| - 1] == NoResponseButton
  {
    [Caption("Original Tweet:"), TweetFrame(original), Caption("Reply:")]
    + (if reply != Extraction.NoReplies then [TweetFrame(reply)] else [Caption("No replies yet")])
    + (if suggestions != [] then [Caption("Suggested Replies:")] + Panels(suggestions) else [])
    + [NoResponseButton]
  }

  /** The suggestions bound to the "Use This Reply" buttons, in the order they appear. */
  function UseButtonTargets(w: seq<Widget>): seq<string> {
    if w == [] then []
    else (if w[0].SuggestionPanel? then [w[0].suggestion] else []) + UseButtonTargets(w[1..])
  }

  /** How many "No Response" buttons there are. */
  function NoResponseButtons(w: seq<Widget>): nat {
    if w == [] then 0
    else (if w[0].NoResponseButton? then 1 else 0) + NoResponseButtons(w[1..])
  }

  lemma {:induction false} ButtonsOfAppend(a: seq<Widget>, b: seq<Widget>)
    ensures UseButtonTargets(a + b) == UseButtonTargets(a) + UseButtonTargets(b)
    ensures NoResponseButtons(a + b) == NoResponseButtons(a) + NoResponseButtons(b)
    decreases |a|
  {
    if a == [] {
      assert a + b == b;
    } else {
      assert (a + b)[0] == a[0];
      assert (a + b)[1..] == a[1..] + b;
      ButtonsOfAppend(a[1..], b);
    }
  }

  lemma {:induction false} ButtonsOfPanels(suggestions: seq<string>)
    ensures UseButtonTargets(Panels(suggestions)) == suggestions
    ensures NoResponseButtons(Panels(suggestions)) == 0
    decreases |suggestions|
  {
    if suggestions != [] {
      assert Panels(suggestions)[1..] == Panels(suggestions[1..]);
      ButtonsOfPanels(suggestions[1..]);
      assert suggestions == [suggestions[0]] + suggestions[1..];
    }
  }

  lemma {:induction false} ButtonsOfDisplays(w: seq<Widget>)
    requires forall i :: 0 <= i < |w| ==> w[i].Caption? || w[i].TweetFrame?
    ensures UseButtonTargets(w) == [] && NoResponseButtons(w) == 0
    decreases |w|
  {
    if w != [] {
      ButtonsOfDisplays(w[1..]);
    }
  }

  /** The captions and frames above the suggestions hold no button. */
  lemma HeaderHasNoButtons(original: string, reply: string)
    ensures var top := [Caption("Original Tweet:"), TweetFrame(original), Caption("Reply:")]
                       + (if reply != Extraction.NoReplies then [TweetFrame(reply)] else [Caption("No replies yet")]);
            UseButtonTargets(top) == [] && NoResponseButtons(top) == 0
  {
    var head := [Caption("Original Tweet:"), TweetFrame(original), Caption("Reply:")];
    var replyPart := if reply != Extraction.NoReplies then [TweetFrame(reply)] else [Caption("No replies yet")];
    ButtonsOfDisplays(head);
    ButtonsOfDisplays(replyPart);
    ButtonsOfAppend(head, replyPart);
  }

  /** The suggestions section holds one "Use This Reply" button per suggestion, in order. */
  lemma SuggestionSectionButtons(suggestions: seq<string>)
    ensures var part := if suggestions != [] then [Caption("Suggested Replies:")] + Panels(suggestions) else [];
            UseButtonTargets(part) == suggestions && NoResponseButtons(part) == 0
  {
    if suggestions != [] {
      ButtonsOfDisplays([Caption("Suggested Replies:")]);
      ButtonsOfPanels(suggestions);
      ButtonsOfAppend([Caption("Suggested Replies:")], Panels(suggestions));
    }
  }

  /**
   * The window always has exactly one "No Response" button, and one "Use This
   * Reply" button per suggestion, in the suggestions' order.
   */
  lemma LayoutButtons(original: string, reply: string, suggestions: seq<string>)
    ensures UseButtonTargets(Layout(original, reply, suggestions)) == suggestions
    ensures NoResponseButtons(Layout(original, reply, suggestions)) == 1
  {
    var top := [Caption("Original Tweet:"), TweetFrame(original), Caption("Reply:")]
               + (if reply != Extraction.NoReplies then [TweetFrame(reply)] else [Caption("No replies yet")]);
    var part := if suggestions != [] then [Caption("Suggested Replies:")] + Panels(suggestions) else [];
    assert Layout(original, reply, suggestions) == top + part + [NoResponseButton];
    HeaderHasNoButtons(original, reply);
    SuggestionSectionButtons(suggestions);
    ButtonsOfAppend(top, part);
    assert UseButtonTargets([NoResponseButton]) == [] && NoResponseButtons([NoResponseButton]) == 1;
    ButtonsOfAppend(top + part, [NoResponseButton]);
  }

  /** The k-th suggestion's panel sits right after the "Suggested Replies:" caption, at index 5 + k. */
  lemma PanelPosition(original: string, reply: string, suggestions: seq<string>, k: nat)
    requires k < |suggestions|
    ensures 5 + k < |Layout(original, reply, suggestions)|
    ensures Layout(original, reply, suggestions)[5 + k] == SuggestionPanel(suggestions[k])
  {
  }

  /** "No replies yet" is shown exactly when the reply is the "no replies" sentinel. */
  lemma NoRepliesNotice(original: string, reply: string, suggestions: seq<string>)
    ensures Caption("No replies yet") in Layout(original, reply, suggestions) <==> reply == Extraction.NoReplies
    ensures reply != Extraction.NoReplies ==> Layout(original, reply, suggestions)[3] == TweetFrame(reply)
  {
    var w := Layout(original, reply, suggestions);
    if reply != Extraction.NoReplies {
      forall i | 0 <= i < |w| ensures w[i] != Caption("No replies yet") {
        if 5 <= i < |w| - 1 {
          assert w[i] == SuggestionPanel(suggestions[i - 5]);
        }
      }
    } else {
      assert w[3] == Caption("No replies yet");
    }
  }

  /** A side effect on the live page, in the order it happened. */
  datatype Action =
    | ClickReplyButton(index: nat)   // `reply_buttons[index].click()`
    | FillComposer(text: string)     // `page.fill(<composer>, text)`
    | ClickSend                      // `page.click(<inline send button>)`

  /**
   * The live page as the window sees it: how many reply buttons
   * `query_selector_all` finds, and every action performed on it so far.
   */
  datatype Page = Page(replyButtons: nat, actions: seq<Action>)

  /** The driver calls of `use_reply`, in order; any of them may raise. */
  datatype Step =
    | FindReplyButtons   // browse.py:127
    | ClickReply         // browse.py:133
    | AwaitComposer      // browse.py:136
    | AwaitEditor        // browse.py:140
    | FillEditor         // browse.py:141
    | ClickSendButton    // browse.py:144

  datatype SubmitError = TooFewReplyButtons | DriverRaised(step: Step)

  /** The message box last shown by the window. */
  datatype Notice = NoNotice | ReplySent | PostFailed(reason: SubmitError) | NotResponding

  /** Everything a successful "Use This Reply" does to the page. */
  function SubmitActions(suggestion: string): seq<Action> {
    [ClickReplyButton(1), FillComposer(suggestion), ClickSend]
  }

  /** What has been done to the page when `step` raises. */
  function DoneBefore(step: Step, suggestion: string): seq<Action> {
    match step
    case FindReplyButtons => []
    case ClickReply => []
    case AwaitComposer => [ClickReplyButton(1)]
    case AwaitEditor => [ClickReplyButton(1)]
    case FillEditor => [ClickReplyButton(1)]
    case ClickSendButton => [ClickReplyButton(1), FillComposer(suggestion)]
  }

  /** The page after the click, whether the window closes, and the message shown. */
  datatype Reaction = Reaction(page: Page, closes: bool, notice: Notice)

  /**
   * `use_reply(suggestion)` (browse.py:124-149) on page `p`, where `fault`
   * names the driver call that raises, if any.
   */
  function UseReplyReaction(p: Page, suggestion: string, fault: Option<Step>): (r: Reaction)
    ensures r.page.replyButtons == p.replyButtons
    ensures r.closes <==> r.notice == ReplySent
    ensures !r.closes ==> r.notice.PostFailed?
  {
    if fault == Some(FindReplyButtons) then Reaction(p, false, PostFailed(DriverRaised(FindReplyButtons)))
    else if p.replyButtons < 2 then Reaction(p, false, PostFailed(TooFewReplyButtons))
    else match fault
      case None => Reaction(p.(actions := p.actions + SubmitActions(suggestion)), true, ReplySent)
      case Some(step) =>
        Reaction(p.(actions := p.actions + DoneBefore(step, suggestion)), false, PostFailed(DriverRaised(step)))
  }

  /** With fewer than two reply buttons the attempt fails, the window stays open and the page is untouched. */
  lemma UseReplyNeedsTwoButtons(p: Page, suggestion: string, fault: Option<Step>)
    requires p.replyButtons < 2
    ensures UseReplyReaction(p, suggestion, fault).page == p
    ensures !UseReplyReaction(p, suggestion, fault).closes
    ensures UseReplyReaction(p, suggestion, fault).notice.PostFailed?
    ensures fault != Some(FindReplyButtons) ==>
              UseReplyReaction(p, suggestion, fault).notice == PostFailed(TooFewReplyButtons)
  {
  }

  /**
   * The window closes exactly when every driver call succeeded, and then the
   * page has seen the reply button at index 1 clicked, the composer filled
   * with exactly the suggestion, and the send button clicked.
   */
  lemma UseReplyClosesOnlyAfterSend(p: Page, suggestion: string, fault: Option<Step>)
    ensures UseReplyReaction(p, suggestion, fault).closes <==> p.replyButtons >= 2 && fault.None?
    ensures UseReplyReaction(p, suggestion, fault).closes ==>
              UseReplyReaction(p, suggestion, fault).page.actions == p.actions + SubmitActions(suggestion)
              && UseReplyReaction(p, suggestion, fault).notice == ReplySent
  {
  }

  /**
   * Whatever happens, the attempt only appends to the page's history, and
   * what it appends is a beginning of the submit sequence: a failed attempt
   * never sends, never clicks another reply button than index 1 and never
   * types anything but the suggestion.
   */
  lemma UseReplyAppendsSubmitPrefix(p: Page, suggestion: string, fault: Option<Step>)
    ensures var q := UseReplyReaction(p, suggestion, fault).page;
            q.replyButtons == p.replyButtons && p.actions <= q.actions
            && q.actions[|p.actions|..] <= SubmitActions(suggestion)
    ensures var q := UseReplyReaction(p, suggestion, fault).page;
            ClickSend in q.actions[|p.actions|..] <==> UseReplyReaction(p, suggestion, fault).closes
    ensures var q := UseReplyReaction(p, suggestion, fault).page;
            forall a :: a in q.actions[|p.actions|..] ==> a != ClickReplyButton(0)
  {
    var r := UseReplyReaction(p, suggestion, fault);
    var added := r.page.actions[|p.actions|..];
    if r.closes {
      assert added == SubmitActions(suggestion);
    } else if fault.Some? && p.replyButtons >= 2 && fault != Some(FindReplyButtons) {
      assert added == DoneBefore(fault.value, suggestion);
    } else {
      assert added == [];
    }
  }

  /** Where the window is in its life: open and waiting, or closed after a send or a decline. */
  datatype Phase = Idle | Done | Declined

  /** The review window of browse.py:42-153. */
  class TweetResponder {
    const original: string
    const reply: string
    const suggestions: seq<string>
    const widgets: seq<Widget>
    var page: Page
    var closed: bool
    var notice: Notice

    ghost predicate Valid()
      reads this
    {
      widgets == Layout(original, reply, suggestions)
      && (closed ==> notice == ReplySent || notice == NotResponding)
    }

    function CurrentPhase(): Phase
      reads this
    {
      if !closed then Idle else if notice == ReplySent then Done else Declined
    }

    /** `TweetResponder(original_post, reply, suggestions, page)`; `init_ui` lays out the column. */
    constructor (original: string, reply: string, suggestions: seq<string>, page: Page)
      ensures Valid()
      ensures this.original == original && this.reply == reply && this.suggestions == suggestions
      ensures this.page == page && !closed && notice == NoNotice && CurrentPhase() == Idle
    {
      this.original := original;
      this.reply := reply;
      this.suggestions := suggestions;
      this.widgets := Layout(original, reply, suggestions);
      this.page := page;
      this.closed := false;
      this.notice := NoNotice;
    }

    /** `use_reply(suggestion)`: each driver call in turn; the first that raises ends the attempt. */
    method UseReply(suggestion: string, fault: Option<Step>)
      requires Valid() && !closed
      modifies this
      ensures Valid()
      ensures Reaction(page, closed, notice) == UseReplyReaction(old(page), suggestion, fault)
      ensures CurrentPhase() == if closed then Done else Idle
    {
      if fault == Some(FindReplyButtons) {
        notice := PostFailed(DriverRaised(FindReplyButtons));
        return;
      }
      if page.replyButtons < 2 {
        notice := PostFailed(TooFewReplyButtons);
        return;
      }
      ghost var before := page.actions;
      if fault == Some(ClickReply) {
        notice := PostFailed(DriverRaised(ClickReply));
        return;
      }
      page := page.(actions := page.actions + [ClickReplyButton(1)]);
      if fault.Some? && fault.value in {AwaitComposer, AwaitEditor, FillEditor} {
        notice := PostFailed(DriverRaised(fault.value));
        return;
      }
      page := page.(actions := page.actions + [FillComposer(suggestion)]);
      if fault == Some(ClickSendButton) {
        notice := PostFailed(DriverRaised(ClickSendButton));
        return;
      }
      page := page.(actions := page.actions + [ClickSend]);
      assert page.actions == before + SubmitActions(suggestion);
      notice := ReplySent;
      closed := true;
    }

    /** `no_response()`: the window closes and the page is not touched. */
    method NoResponse()
      requires Valid() && !closed
      modifies this
      ensures Valid()
      ensures closed && page == old(page) && notice == NotResponding
      ensures CurrentPhase() == Declined
    {
      notice := NotResponding;
      closed := true;
    }

    /** A click on the button at position `i` of the column, dispatched as `init_ui` wired it. */
    method Press(i: nat, fault: Option<Step>)
      requires Valid() && !closed
      requires i < |widgets| && (widgets[i].SuggestionPanel? || widgets[i].NoResponseButton?)
      modifies this
      ensures Valid()
      ensures widgets[i].NoResponseButton? ==> closed && page == old(page) && notice == NotResponding
      ensures widgets[i].SuggestionPanel? ==>
                Reaction(page, closed, notice) == UseReplyReaction(old(page), widgets[i].suggestion, fault)
    {
      if widgets[i].SuggestionPanel? {
        UseReply(widgets[i].suggestion, fault);
      } else {
        NoResponse();
      }
    }
  }
}
