/** The platform adapter capability (src/platforms/platform.interface.ts), dispatched
    on the platform tag as the `adapters` record of the processor and the callbacks does. */
module Adapters {
  import opened Wrappers
  import opened Types
  import opened Strings
  import GooglePlay
  import AppStore
  import MockStore
  import AiService

  /** A reply as a store's reply endpoint receives it. */
  datatype Submission = Submission(platform: Platform, appId: string, reviewId: string, text: string)

  /** The stores' APIs: the responses each listing gives to successive page requests
      (by package name or app id), the mock's seed pick and clock, and whether a
      reply submission succeeds. */
  datatype StoreApis = StoreApis(
    googlePages: string -> seq<Result<GooglePlay.Page, Error>>,
    appStorePages: string -> seq<Result<AppStore.Page, Error>>,
    mockPick: string -> MockStore.SeedIndex,
    clock: nat,
    accepts: Submission -> bool)

  /** `fetchUnrespondedReviews` of the platform's adapter. */
  function Fetch(p: Platform, appId: string, appName: string, apis: StoreApis): (r: Result<seq<NormalizedReview>, Error>)
    ensures p == GooglePlay ==> r == GooglePlay.Listing(apis.googlePages(appId), appId, appName)
    ensures p == AppStore ==> r == AppStore.Listing(apis.appStorePages(appId), 0, appId, appName)
    ensures p == Mock ==> r == Ok(MockStore.FetchUnrespondedReviews(appId, appName, apis.mockPick(appId), apis.clock))
    ensures r.Ok? ==> forall x :: x in r.value ==> x.platform == p && x.appId == appId && x.appName == appName
  {
    match p
    case GooglePlay =>
      var r := GooglePlay.Listing(apis.googlePages(appId), appId, appName);
      if r.Ok? then GooglePlay.ListingTagged(apis.googlePages(appId), appId, appName); r else r
    case AppStore =>
      var r := AppStore.Listing(apis.appStorePages(appId), 0, appId, appName);
      if r.Ok? then AppStore.ListingTagged(apis.appStorePages(appId), 0, appId, appName); r else r
    case Mock =>
      Ok(MockStore.FetchUnrespondedReviews(appId, appName, apis.mockPick(appId), apis.clock))
  }

  method FetchUnrespondedReviews(p: Platform, appId: string, appName: string, apis: StoreApis)
    returns (r: Result<seq<NormalizedReview>, Error>)
    ensures r == Fetch(p, appId, appName, apis)
  {
    match p
    case GooglePlay =>
      r := GooglePlay.FetchUnrespondedReviews(apis.googlePages(appId), appId, appName);
    case AppStore =>
      r := AppStore.FetchUnrespondedReviews(apis.appStorePages(appId), appId, appName);
    case Mock =>
      r := Ok(MockStore.FetchUnrespondedReviews(appId, appName, apis.mockPick(appId), apis.clock));
  }

  /** The cut both store adapters make before submitting: the first `CharLimit(p)`
      characters of the reply, 350 on Google Play and 5970 on the App Store. */
  function ReplyText(p: Platform, text: string): (r: string)
    ensures r <= text && |r| <= AiService.CharLimit(p)
    ensures |text| <= AiService.CharLimit(p) ==> r == text
    ensures |text| > AiService.CharLimit(p) ==> |r| == AiService.CharLimit(p)
  {
    Truncate(text, AiService.CharLimit(p))
  }

  /** What `replyToReview` submits: the text cut to the store's limit; the mock submits nothing.
      The App Store endpoint is addressed by review id alone. */
  function Submitted(p: Platform, appId: string, reviewId: string, text: string): (s: Option<Submission>)
    ensures s.Some? <==> p != Mock
    ensures s.Some? ==> s.value.platform == p && s.value.reviewId == reviewId
    ensures s.Some? ==> s.value.text <= text && |s.value.text| <= AiService.CharLimit(p)
    ensures s.Some? && |text| <= AiService.CharLimit(p) ==> s.value.text == text
  {
    match p
    case GooglePlay => Some(Submission(GooglePlay, appId, reviewId, ReplyText(GooglePlay, text)))
    case AppStore => Some(Submission(AppStore, "", reviewId, ReplyText(AppStore, text)))
    case Mock => None
  }

  /** `replyToReview`: whether it returns normally (a failed request throws). The mock
      changes nothing and always succeeds. */
  function ReplyToReview(p: Platform, appId: string, reviewId: string, text: string, apis: StoreApis): (ok: bool)
    ensures p == Mock ==> ok
    ensures p != Mock ==> (ok <==> apis.accepts(Submitted(p, appId, reviewId, text).value))
  {
    var s := Submitted(p, appId, reviewId, text);
    if s.None? then true else apis.accepts(s.value)
  }
}
