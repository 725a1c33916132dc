/** The App Store Connect adapter (src/platforms/app-store.adapter.ts). The HTTP client
    is replaced by the sequence of responses to successive page requests: Err for a
    non-OK response; a request made after the last recorded response reads as failed.
    The "no published response" filter is applied by the server in the request URL. */
module AppStore {
  import opened Wrappers
  import opened Types
  import opened Strings

  /** The per-run cap on collected reviews. */
  const Cap: nat := 200
  /** The page size the request asks for (`limit=50`). */
  const PageSize: nat := 50

  datatype Attributes = Attributes(
    rating: nat,
    title: Option<string>,
    body: string,
    reviewerNickname: Option<string>,
    territory: Option<string>)

  datatype CustomerReview = CustomerReview(id: string, attributes: Attributes)

  /** One response: the reviews and the `links.next` URL. */
  datatype Page = Page(data: seq<CustomerReview>, next: Option<string>)

  /** The review text: "title\nbody" when there is a non-empty title, else the body. */
  function FullText(attrs: Attributes): string {
    if Truthy(attrs.title) then attrs.title.value + "\n" + attrs.body else attrs.body
  }

  /** `normalize`. */
  function Normalize(review: CustomerReview, appId: string, appName: string): (r: NormalizedReview)
    ensures r.platform == AppStore && r.appId == appId && r.appName == appName && r.reviewId == review.id
    ensures r.reviewerLanguage == "auto" && r.translatedText.None?
    ensures r.territory == Some(review.attributes.territory.GetOr("USA"))
    ensures r.authorName == review.attributes.reviewerNickname.GetOr("Anonymous")
    ensures r.originalText == FullText(review.attributes) && r.starRating == review.attributes.rating
  {
    var attrs := review.attributes;
    NormalizedReview(
      review.id, AppStore, appId, appName,
      attrs.reviewerNickname.GetOr("Anonymous"),
      attrs.rating, FullText(attrs), None, "auto",
      Some(attrs.territory.GetOr("USA")))
  }

  /** Every review of a page, normalized, in order. */
  function NormalizeAll(data: seq<CustomerReview>, appId: string, appName: string): (r: seq<NormalizedReview>)
    ensures |r| == |data|
    ensures forall i :: 0 <= i < |data| ==> r[i] == Normalize(data[i], appId, appName)
  {
    if data == [] then [] else NormalizeAll(data[..|data| - 1], appId, appName) + [Normalize(data[|data| - 1], appId, appName)]
  }

  /** The outcome of the paging loop, `collected` reviews having been gathered before:
      paging goes on while a non-empty next link is returned and fewer than 200 have been gathered. */
  function Listing(responses: seq<Result<Page, Error>>, collected: nat, appId: string, appName: string): Result<seq<NormalizedReview>, Error> {
    if responses == [] then Err(RequestFailed)
    else if responses[0].Err? then Err(responses[0].error)
    else
      var page := responses[0].value;
      var items := NormalizeAll(page.data, appId, appName);
      if Truthy(page.next) && collected + |items| < Cap then
        Prepend(items, Listing(responses[1..], collected + |items|, appId, appName))
      else Ok(items)
  }

  /** The `for` loop pushing every review of one page. */
  method CollectPage(data: seq<CustomerReview>, appId: string, appName: string) returns (items: seq<NormalizedReview>)
    ensures items == NormalizeAll(data, appId, appName)
  {
    items := [];
    for j := 0 to |data|
      invariant items == NormalizeAll(data[..j], appId, appName)
    {
      assert data[..j + 1][..j] == data[..j];
      items := items + [Normalize(data[j], appId, appName)];
    }
    assert data[..|data|] == data;
  }

  /** `fetchUnrespondedReviews`: the while loop over `links.next` with the 200 cap. */
  method FetchUnrespondedReviews(responses: seq<Result<Page, Error>>, appId: string, appName: string)
    returns (r: Result<seq<NormalizedReview>, Error>)
    ensures r == Listing(responses, 0, appId, appName)
  {
    var unresponded: seq<NormalizedReview> := [];
    var i := 0;
    var more := true;  // the first URL is always set
    assert responses[0..] == responses;
    PrependNothing(Listing(responses, 0, appId, appName));
    while more
      invariant 0 <= i <= |responses|
      invariant more ==> Listing(responses, 0, appId, appName) == Prepend(unresponded, Listing(responses[i..], |unresponded|, appId, appName))
      invariant !more ==> Listing(responses, 0, appId, appName) == Ok(unresponded)
      decreases |responses| - i, more
    {
      if i == |responses| {
        return Err(RequestFailed);
      }
      if responses[i].Err? {
        return Err(responses[i].error);
      }
      var page := responses[i].value;
      var items := CollectPage(page.data, appId, appName);
      assert responses[i..][1..] == responses[i + 1..];
      PrependTwice(unresponded, items, Listing(responses[i + 1..], |unresponded| + |items|, appId, appName));
      unresponded := unresponded + items;
      more := Truthy(page.next);
      if |unresponded| >= Cap {
        more := false;
      }
      i := i + 1;
    }
    r := Ok(unresponded);
  }

  /** Every fetched review is tagged with the App Store and the caller's app, with language "auto". */
  lemma {:induction false} ListingTagged(responses: seq<Result<Page, Error>>, collected: nat, appId: string, appName: string)
    requires Listing(responses, collected, appId, appName).Ok?
    ensures forall x :: x in Listing(responses, collected, appId, appName).value ==>
      x.platform == AppStore && x.appId == appId && x.appName == appName && x.reviewerLanguage == "auto"
  {
    var page := responses[0].value;
    var items := NormalizeAll(page.data, appId, appName);
    if Truthy(page.next) && collected + |items| < Cap {
      ListingTagged(responses[1..], collected + |items|, appId, appName);
    }
  }

  /** With pages of at most 50 reviews, as requested, one run gathers at most 249:
      the cap stops paging after the first page that reaches 200. */
  lemma {:induction false} ListingBounded(responses: seq<Result<Page, Error>>, collected: nat, appId: string, appName: string)
    requires collected < Cap
    requires forall i :: 0 <= i < |responses| && responses[i].Ok? ==> |responses[i].value.data| <= PageSize
    requires Listing(responses, collected, appId, appName).Ok?
    ensures collected + |Listing(responses, collected, appId, appName).value| < Cap + PageSize
  {
    var page := responses[0].value;
    var items := NormalizeAll(page.data, appId, appName);
    if Truthy(page.next) && collected + |items| < Cap {
      ListingBounded(responses[1..], collected + |items|, appId, appName);
    }
  }

  /** A page that brings the count to 200 ends the run, whatever follows. */
  lemma StopsAtCap(responses: seq<Result<Page, Error>>, other: seq<Result<Page, Error>>, collected: nat, appId: string, appName: string)
    requires |responses| > 0 && responses[0].Ok?
    requires collected + |responses[0].value.data| >= Cap
    ensures Listing(responses, collected, appId, appName) == Listing(responses[..1] + other, collected, appId, appName)
    ensures Listing(responses, collected, appId, appName) == Ok(NormalizeAll(responses[0].value.data, appId, appName))
  {
  }
}
