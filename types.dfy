/** The enums and records shared by the whole bot (src/types/index.ts). */
module Types {
  import opened Wrappers

  /** The three store platforms; the source spells them 'google_play', 'app_store', 'mock'. */
  datatype Platform = GooglePlay | AppStore | Mock

  /** Lifecycle status of a stored review. */
  datatype ReviewStatus = Pending | Replied | Skipped

  /** The ways an operation of the core can fail (a thrown error in the source). */
  datatype Error =
    | RequestFailed      // a store API, Telegram or OpenAI request threw
    | EmptyResponse      // OpenAI returned no content
    | MalformedResponse  // the content is not a JSON object with the two reply fields
    | DuplicateKey       // PRIMARY KEY violation on insert
    | MissingFile        // a replyContext file path that does not exist
    | UnreadableFile     // a replyContext path that exists but cannot be read (a directory, no permission)
    | NoApps             // apps.json holds an empty list

  function PlatformName(p: Platform): string {
    match p
    case GooglePlay => "google_play"
    case AppStore => "app_store"
    case Mock => "mock"
  }

  /** Reading a platform tag back: exactly the three names are platforms. */
  function ParsePlatform(s: string): (r: Option<Platform>)
    ensures r.Some? <==> s in {"google_play", "app_store", "mock"}
    ensures r.Some? ==> PlatformName(r.value) == s
  {
    if s == "google_play" then Some(GooglePlay)
    else if s == "app_store" then Some(AppStore)
    else if s == "mock" then Some(Mock)
    else None
  }

  lemma PlatformNameRoundTrip(p: Platform)
    ensures ParsePlatform(PlatformName(p)) == Some(p)
    ensures ':' !in PlatformName(p)
  {
  }

  function StatusName(s: ReviewStatus): string {
    match s
    case Pending => "pending"
    case Replied => "replied"
    case Skipped => "skipped"
  }

  /** Reading a status column back: exactly the three names are statuses. */
  function ParseStatus(s: string): (r: Option<ReviewStatus>)
    ensures r.Some? <==> s in {"pending", "replied", "skipped"}
    ensures r.Some? ==> StatusName(r.value) == s
  {
    if s == "pending" then Some(Pending)
    else if s == "replied" then Some(Replied)
    else if s == "skipped" then Some(Skipped)
    else None
  }

  lemma StatusNameRoundTrip(s: ReviewStatus)
    ensures ParseStatus(StatusName(s)) == Some(s)
  {
  }

  /** A review as an adapter returns it. `translatedText` is None when the review
      is already in the preferred language; `reviewerLanguage` is a language code
      or "auto" when unknown. Star ratings are never negative in the model. */
  datatype NormalizedReview = NormalizedReview(
    reviewId: string,
    platform: Platform,
    appId: string,
    appName: string,
    authorName: string,
    starRating: nat,
    originalText: string,
    translatedText: Option<string>,
    reviewerLanguage: string,
    territory: Option<string>)

  /** One entry of apps.json after loading. */
  datatype AppConfig = AppConfig(name: string, platform: Platform, id: string, replyContext: string)

  /** What the AI service hands back: the reply for the store and its translation. */
  datatype GeneratedReply = GeneratedReply(reply: string, replyTranslated: string)

  /** Prefixing the reviews of earlier pages to the outcome of a listing's later pages. */
  function Prepend(items: seq<NormalizedReview>, r: Result<seq<NormalizedReview>, Error>): Result<seq<NormalizedReview>, Error> {
    if r.Ok? then Ok(items + r.value) else r
  }

  lemma PrependNothing(r: Result<seq<NormalizedReview>, Error>)
    ensures Prepend([], r) == r
  {
    if r.Ok? { assert [] + r.value == r.value; }
  }

  lemma PrependTwice(a: seq<NormalizedReview>, b: seq<NormalizedReview>, r: Result<seq<NormalizedReview>, Error>)
    ensures Prepend(a, Prepend(b, r)) == Prepend(a + b, r)
  {
    if r.Ok? { assert a + (b + r.value) == (a + b) + r.value; }
  }

  /** JavaScript truthiness of an optional string: present and not empty. */
  predicate Truthy(s: Option<string>) {
    s.Some? && s.value != ""
  }
}
