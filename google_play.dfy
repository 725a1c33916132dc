/** The Google Play adapter (src/platforms/google-play.adapter.ts). The API client is
    replaced by the sequence of responses to successive `reviews.list` requests; a
    request made after the last recorded response reads as a failed request. */
module GooglePlay {
  import opened Wrappers
  import opened Types
  import opened Strings

  datatype UserComment = UserComment(text: Option<string>, starRating: Option<nat>, reviewerLanguage: Option<string>)

  /** A comment of a review: the reviewer's text and, once answered, the developer's. */
  datatype Comment = Comment(userComment: Option<UserComment>, developerComment: Option<string>)

  datatype Review = Review(reviewId: Option<string>, authorName: Option<string>, comments: Option<seq<Comment>>)

  /** One page of `reviews.list`: its reviews and the token of the next page. */
  datatype Page = Page(reviews: Option<seq<Review>>, nextPageToken: Option<string>)

  /** `hasDeveloperReply`: some comment carries a developer comment. */
  function HasDeveloperReply(review: Review): (b: bool)
    ensures review.comments.None? ==> !b
    ensures b <==> exists c :: c in review.comments.GetOr([]) && c.developerComment.Some?
  {
    var comments := review.comments.GetOr([]);
    exists i :: 0 <= i < |comments| && comments[i].developerComment.Some?
  }

  /** The first comment's user comment, if any. */
  function FirstUserComment(review: Review): Option<UserComment> {
    var comments := review.comments.GetOr([]);
    if |comments| == 0 then None else comments[0].userComment
  }

  /** `normalize`: None without a user comment, else the review with its defaults. */
  function Normalize(review: Review, appId: string, appName: string): (r: Option<NormalizedReview>)
    ensures r.Some? <==> FirstUserComment(review).Some?
    ensures r.Some? ==> var u := FirstUserComment(review).value;
      && r.value.platform == GooglePlay && r.value.appId == appId && r.value.appName == appName
      && r.value.reviewId == review.reviewId.GetOr("")
      && r.value.authorName == review.authorName.GetOr("Anonymous")
      && r.value.starRating == u.starRating.GetOr(0)
      && r.value.originalText == u.text.GetOr("")
      && r.value.reviewerLanguage == u.reviewerLanguage.GetOr("auto")
      && r.value.territory.None? && r.value.translatedText.None?
  {
    var u := FirstUserComment(review);
    if u.None? then None
    else Some(NormalizedReview(
      review.reviewId.GetOr(""), GooglePlay, appId, appName,
      review.authorName.GetOr("Anonymous"),
      u.value.starRating.GetOr(0),
      u.value.text.GetOr(""),
      None,
      u.value.reviewerLanguage.GetOr("auto"),
      None))
  }

  /** What one review contributes: nothing when it is answered or has no user comment. */
  function Kept(review: Review, appId: string, appName: string): seq<NormalizedReview> {
    if HasDeveloperReply(review) then []
    else
      var n := Normalize(review, appId, appName);
      if n.None? then [] else [n.value]
  }

  /** The unanswered reviews of one page, in API order. */
  function Unresponded(reviews: seq<Review>, appId: string, appName: string): (r: seq<NormalizedReview>)
    ensures |r| <= |reviews|
    ensures forall x :: x in r ==> x.platform == GooglePlay && x.appId == appId && x.appName == appName
    ensures forall x :: x in r ==> exists j :: 0 <= j < |reviews| && !HasDeveloperReply(reviews[j]) && Normalize(reviews[j], appId, appName) == Some(x)
  {
    if reviews == [] then []
    else
      var last := reviews[|reviews| - 1];
      var init := Unresponded(reviews[..|reviews| - 1], appId, appName);
      assert forall j :: 0 <= j < |reviews| - 1 ==> reviews[..|reviews| - 1][j] == reviews[j];
      init + Kept(last, appId, appName)
  }

  /** A page's token asks for another page when it is present and not empty. */
  predicate HasNextPage(page: Page) {
    Truthy(page.nextPageToken)
  }

  /** The outcome of the paging loop over the given responses. */
  function Listing(responses: seq<Result<Page, Error>>, appId: string, appName: string): Result<seq<NormalizedReview>, Error> {
    if responses == [] then Err(RequestFailed)
    else if responses[0].Err? then Err(responses[0].error)
    else
      var page := responses[0].value;
      var kept := Unresponded(page.reviews.GetOr([]), appId, appName);
      if HasNextPage(page) then Prepend(kept, Listing(responses[1..], appId, appName)) else Ok(kept)
  }

  /** The `for` loop over one page's reviews, pushing each unanswered normalized review. */
  method CollectPage(reviews: seq<Review>, appId: string, appName: string) returns (kept: seq<NormalizedReview>)
    ensures kept == Unresponded(reviews, appId, appName)
  {
    kept := [];
    for j := 0 to |reviews|
      invariant kept == Unresponded(reviews[..j], appId, appName)
    {
      assert reviews[..j + 1][..j] == reviews[..j];
      if !HasDeveloperReply(reviews[j]) {
        var normalized := Normalize(reviews[j], appId, appName);
        if normalized.Some? {
          kept := kept + [normalized.value];
        }
      }
    }
    assert reviews[..|reviews|] == reviews;
  }

  /** `fetchUnrespondedReviews`: the do-while loop over pages. */
  method FetchUnrespondedReviews(responses: seq<Result<Page, Error>>, appId: string, appName: string)
    returns (r: Result<seq<NormalizedReview>, Error>)
    ensures r == Listing(responses, appId, appName)
  {
    var unresponded: seq<NormalizedReview> := [];
    var i := 0;
    var more := true;
    assert responses[0..] == responses;
    PrependNothing(Listing(responses, appId, appName));
    while more
      invariant 0 <= i <= |responses|
      invariant more ==> Listing(responses, appId, appName) == Prepend(unresponded, Listing(responses[i..], appId, appName))
      invariant !more ==> Listing(responses, appId, appName) == Ok(unresponded)
      decreases |responses| - i, more
    {
      if i == |responses| {
        return Err(RequestFailed);
      }
      if responses[i].Err? {
        return Err(responses[i].error);
      }
      var page := responses[i].value;
      var kept := CollectPage(page.reviews.GetOr([]), appId, appName);
      assert responses[i..][1..] == responses[i + 1..];
      assert Listing(responses[i..], appId, appName)
        == if HasNextPage(page) then Prepend(kept, Listing(responses[i + 1..], appId, appName)) else Ok(kept);
      PrependTwice(unresponded, kept, Listing(responses[i + 1..], appId, appName));
      unresponded := unresponded + kept;
      more := HasNextPage(page);
      i := i + 1;
    }
    r := Ok(unresponded);
  }

  /** Every fetched review is tagged with Google Play and the caller's app. */
  lemma {:induction false} ListingTagged(responses: seq<Result<Page, Error>>, appId: string, appName: string)
    requires Listing(responses, appId, appName).Ok?
    ensures forall x :: x in Listing(responses, appId, appName).value ==>
      x.platform == GooglePlay && x.appId == appId && x.appName == appName
  {
    var page := responses[0].value;
    if HasNextPage(page) {
      ListingTagged(responses[1..], appId, appName);
    }
  }

  /** One review alone contributes what `Kept` says. */
  lemma UnrespondedSingle(review: Review, appId: string, appName: string)
    ensures Unresponded([review], appId, appName) == Kept(review, appId, appName)
  {
    assert [review][..0] == [];
  }

  /** Filtering a page is filtering its parts, in order. */
  lemma {:induction false} UnrespondedAppend(a: seq<Review>, b: seq<Review>, appId: string, appName: string)
    ensures Unresponded(a + b, appId, appName) == Unresponded(a, appId, appName) + Unresponded(b, appId, appName)
    decreases |b|
  {
    if b == [] {
      assert a + b == a;
    } else {
      var b' := b[..|b| - 1];
      assert (a + b)[..|a + b| - 1] == a + b';
      assert (a + b)[|a + b| - 1] == b[|b| - 1];
      UnrespondedAppend(a, b', appId, appName);
    }
  }

  /** Wherever it stands in a page, an answered review contributes nothing, and neither
      does one without a user comment. */
  lemma AnsweredOrEmptyExcluded(before: seq<Review>, review: Review, after: seq<Review>, appId: string, appName: string)
    requires HasDeveloperReply(review) || FirstUserComment(review).None?
    ensures Unresponded(before + [review] + after, appId, appName) == Unresponded(before + after, appId, appName)
  {
    UnrespondedAppend(before + [review], after, appId, appName);
    UnrespondedAppend(before, [review], appId, appName);
    UnrespondedSingle(review, appId, appName);
    UnrespondedAppend(before, after, appId, appName);
  }

  /** Wherever it stands in a page, an unanswered review with a user comment is kept,
      normalised, between what the reviews before it and after it contribute. */
  lemma UnansweredKept(before: seq<Review>, review: Review, after: seq<Review>, appId: string, appName: string)
    requires !HasDeveloperReply(review) && FirstUserComment(review).Some?
    ensures Unresponded(before + [review] + after, appId, appName)
      == Unresponded(before, appId, appName) + [Normalize(review, appId, appName).value] + Unresponded(after, appId, appName)
  {
    UnrespondedAppend(before + [review], after, appId, appName);
    UnrespondedAppend(before, [review], appId, appName);
    UnrespondedSingle(review, appId, appName);
  }

  /** Paging stops at the first page without a next-page token: later responses are never read. */
  lemma StopsWithoutToken(responses: seq<Result<Page, Error>>, other: seq<Result<Page, Error>>, appId: string, appName: string)
    requires |responses| > 0 && responses[0].Ok? && !HasNextPage(responses[0].value)
    ensures Listing(responses, appId, appName) == Listing(responses[..1] + other, appId, appName)
  {
  }
}
