/**
 * The content extractor (`get_most_recent_tweet_and_reply`) with the browser
 * abstracted away: which post is opened, which texts are read, and the
 * placeholder and sentinel strings used in place of missing ones; plus the
 * guard in `main` that decides whether suggestions are generated.
 */
module Extraction {
  import opened Wrappers

  /** Stands in for a missing main post text (browse.py:254). */
  const NoOriginalPost := "No original post found"

  /** Stands in for a missing reply (browse.py:263). */
  const NoReplies := "no replies"

  /**
   * What the page shows once a post element has been clicked: its URL, the
   * inner text of the first `tweetText` node on the page (None when there is
   * none), and, for each reply container in document order, the inner text
   * of its first `tweetText` node (None when it has none).
   */
  datatype PostView = PostView(url: string, mainText: Option<string>, containers: seq<Option<string>>)

  /** `(None, None, None)` or `(post_url, original_post_text, reply_text)`. */
  datatype Extracted = NoPost | Post(url: string, original: string, reply: string)

  /** `replies[1]` has no `tweetText` node: `.inner_text()` on None raises. */
  datatype ExtractError = ReplyTextMissing

  /**
   * The selection rules of browse.py:242-269. `posts[i]` is what the page
   * would show after clicking the i-th post element in document order.
   */
  function MostRecent(posts: seq<PostView>): (r: Result<Extracted, ExtractError>)
    ensures posts == [] <==> r == Success(NoPost)
    ensures r.Success? && r.value.Post? ==> r.value.url == posts[0].url
    ensures r.Failure? <==> posts != [] && |posts[0].containers| > 1 && posts[0].containers[1].None?
  {
    if posts == [] then Success(NoPost)
    else
      var view := posts[0];
      var original := if view.mainText.Some? then view.mainText.value else NoOriginalPost;
      if |view.containers| > 1 then
        match view.containers[1]
        case Some(text) => Success(Post(view.url, original, text))
        case None => Failure(ReplyTextMissing)
      else Success(Post(view.url, original, NoReplies))
  }

  /** Only the first post element is ever opened: the others cannot change the result. */
  lemma OnlyFirstPostRead(first: PostView, rest: seq<PostView>, others: seq<PostView>)
    ensures MostRecent([first] + rest) == MostRecent([first] + others)
  {
  }

  /** The original text is the main text when there is one and the placeholder otherwise. */
  lemma OriginalTextRule(view: PostView, rest: seq<PostView>)
    requires MostRecent([view] + rest).Success?
    ensures MostRecent([view] + rest).value.Post?
    ensures view.mainText.Some? ==> MostRecent([view] + rest).value.original == view.mainText.value
    ensures view.mainText.None? ==> MostRecent([view] + rest).value.original == NoOriginalPost
  {
  }

  /**
   * Fewer than two reply containers give the sentinel; otherwise the reply
   * is read from the container at index 1 and from no other.
   */
  lemma ReplyRule(view: PostView, rest: seq<PostView>)
    ensures |view.containers| <= 1 ==> MostRecent([view] + rest).Success?
                                        && MostRecent([view] + rest).value.reply == NoReplies
    ensures |view.containers| > 1 && view.containers[1].Some? ==>
              MostRecent([view] + rest).Success?
              && MostRecent([view] + rest).value.reply == view.containers[1].value
    ensures |view.containers| > 1 && view.containers[1].None? ==>
              MostRecent([view] + rest) == Failure(ReplyTextMissing)
  {
  }

  /** The container at index 0 and those past index 1 are never read. */
  lemma ReplyReadsOnlyIndexOne(view: PostView, c0: Option<string>, tail: seq<Option<string>>)
    requires |view.containers| >= 2
    ensures MostRecent([view.(containers := [c0, view.containers[1]] + tail)])
            == MostRecent([view])
  {
  }

  /** Python truthiness of `post_url and original_post` (browse.py:294). */
  predicate ProceedsToGeneration(e: Extracted): (b: bool)
    ensures b ==> e.Post? && e.original != []
    ensures e.Post? && e.url != [] && e.original == NoOriginalPost ==> b
  {
    e.Post? && e.url != [] && e.original != []
  }

  /**
   * Which pages lead to suggestion generation: a post exists, its URL is not
   * empty and its main text is not the empty string. A missing main text
   * does not stop generation: the placeholder is non-empty.
   */
  lemma GenerationGuard(posts: seq<PostView>)
    requires MostRecent(posts).Success?
    ensures ProceedsToGeneration(MostRecent(posts).value)
            <==> posts != [] && posts[0].url != [] && posts[0].mainText != Some([])
  {
    if posts != [] && posts[0].mainText.None? {
      assert NoOriginalPost != [];
    }
  }
}
