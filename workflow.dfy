/**
 * The orchestration in `main` (browse.py:286-315) after login: extract the
 * newest post, generate suggestions only when the guard allows it, and open
 * the review window with what was found. Exceptions from extraction are
 * caught by `main`'s handler, which ends the run.
 */
module Workflow {
  import opened Wrappers
  import Extraction
  import Suggestions

  datatype RunOutcome =
    | ReviewOpened(original: string, reply: string, suggestions: seq<string>)  // browse.py:306-309
    | NotRetrieved                                                          // browse.py:311
    | Errored                                                               // browse.py:312-315

  /** The run from extraction to the review window, with the generator as evidently intended. */
  function Run(posts: seq<Extraction.PostView>, transport: Suggestions.Transport): (o: RunOutcome)
    ensures o.ReviewOpened? ==> o.original != [] && |o.suggestions| <= Suggestions.MaxSuggestions
    ensures posts == [] ==> o == NotRetrieved
    ensures o.Errored? <==> Extraction.MostRecent(posts).Failure?
    ensures o.ReviewOpened? <==> Extraction.MostRecent(posts).Success?
                                 && Extraction.ProceedsToGeneration(Extraction.MostRecent(posts).value)
    ensures o.ReviewOpened? ==>
              o.original == Extraction.MostRecent(posts).value.original
              && o.reply == Extraction.MostRecent(posts).value.reply
              && o.suggestions == Suggestions.GenerateReplies(transport)
  {
    match Extraction.MostRecent(posts)
    case Failure(_) => Errored
    case Success(e) =>
      if Extraction.ProceedsToGeneration(e) then
        ReviewOpened(e.original, e.reply, Suggestions.GenerateReplies(transport))
      else NotRetrieved
  }

  /** When the guard at browse.py:294 fails, the generator is never consulted. */
  lemma NoGenerationWithoutPost(posts: seq<Extraction.PostView>, t1: Suggestions.Transport, t2: Suggestions.Transport)
    requires Extraction.MostRecent(posts).Success?
    requires !Extraction.ProceedsToGeneration(Extraction.MostRecent(posts).value)
    ensures Run(posts, t1) == Run(posts, t2) == NotRetrieved
    ensures RunAsWritten(posts, t1) == RunAsWritten(posts, t2) == NotRetrieved
  {
  }

  /**
   * A 4xx/5xx status still opens the window, with no suggestions, and the
   * window shows the newest post's text and its reply.
   */
  lemma FailedGenerationStillReviews(posts: seq<Extraction.PostView>, t: Suggestions.Transport)
    requires Extraction.MostRecent(posts).Success?
    requires Extraction.ProceedsToGeneration(Extraction.MostRecent(posts).value)
    requires t.Answered? && Suggestions.IsHttpError(t.status)
    ensures Run(posts, t) == ReviewOpened(Extraction.MostRecent(posts).value.original,
                                          Extraction.MostRecent(posts).value.reply, [])
    ensures RunAsWritten(posts, t) == Run(posts, t)
  {
  }

  /** With the corrected generator, a raising `requests.post` also opens the window, with no suggestions. */
  lemma CorrectedPostFailureStillReviews(posts: seq<Extraction.PostView>)
    requires Extraction.MostRecent(posts).Success?
    requires Extraction.ProceedsToGeneration(Extraction.MostRecent(posts).value)
    ensures Run(posts, Suggestions.PostRaised)
            == ReviewOpened(Extraction.MostRecent(posts).value.original,
                            Extraction.MostRecent(posts).value.reply, [])
  {
  }

  /**
   * The run with the generator as written: the UnboundLocalError escaping
   * `generate_claude_replies` reaches `main`'s handler (browse.py:312-315).
   */
  function RunAsWritten(posts: seq<Extraction.PostView>, transport: Suggestions.Transport): (o: RunOutcome)
    ensures o.Errored? <==> Extraction.MostRecent(posts).Failure?
                            || (Extraction.MostRecent(posts).Success?
                                && Extraction.ProceedsToGeneration(Extraction.MostRecent(posts).value)
                                && transport.PostRaised?)
    ensures !transport.PostRaised? ==> o == Run(posts, transport)
    ensures !(Extraction.MostRecent(posts).Success?
              && Extraction.ProceedsToGeneration(Extraction.MostRecent(posts).value))
            ==> o == Run(posts, transport)
  {
    match Extraction.MostRecent(posts)
    case Failure(_) => Errored
    case Success(e) =>
      if Extraction.ProceedsToGeneration(e) then
        match Suggestions.GenerateRepliesAsWritten(transport)
        case Success(suggestions) => ReviewOpened(e.original, e.reply, suggestions)
        case Failure(_) => Errored
      else NotRetrieved
  }

  /** As written, a raising `requests.post` after a passing guard ends the run in the error handler. */
  lemma PostFailureEndsRunAsWritten(posts: seq<Extraction.PostView>)
    requires Extraction.MostRecent(posts).Success?
    requires Extraction.ProceedsToGeneration(Extraction.MostRecent(posts).value)
    ensures RunAsWritten(posts, Suggestions.PostRaised) == Errored
  {
  }
}
