/** The mock adapter (src/platforms/mock.adapter.ts): one seed review per fetch.
    The random shuffle is replaced by the index of the seed it puts first, and
    `Date.now()` by a clock value. */
module MockStore {
  import opened Wrappers
  import opened Types
  import opened Strings

  datatype Seed = Seed(authorName: string, starRating: nat, originalText: string, reviewerLanguage: string, territory: string)

  /** MOCK_REVIEWS. */
  const Seeds: seq<Seed> := [
    Seed("John Smith", 5,
      "Amazing app! Works perfectly and the UI is very intuitive. Highly recommend to everyone.",
      "en", "US"),
    Seed("Hans Mueller", 2,
      "Die App stuerzt staendig ab wenn ich versuche mich einzuloggen. Sehr frustrierend, bitte beheben Sie das Problem.",
      "de", "DE"),
    Seed("Yuki Tanaka", 4,
      "\U{3068}\U{3066}\U{3082}\U{4fbf}\U{5229}\U{306a}\U{30a2}\U{30d7}\U{30ea}\U{3067}\U{3059}\U{304c}\U{3001}\U{30c0}\U{30fc}\U{30af}\U{30e2}\U{30fc}\U{30c9}\U{304c}\U{3042}\U{308c}\U{3070}\U{3082}\U{3063}\U{3068}\U{826f}\U{3044}\U{3068}\U{601d}\U{3044}\U{307e}\U{3059}\U{3002}",
      "ja", "JP"),
    Seed("Maria Garcia", 1,
      "La peor aplicacion que he usado. Se congela todo el tiempo y perdi todos mis datos. Quiero un reembolso.",
      "es", "ES"),
    Seed("Pierre Dubois", 3,
      "L'application est correcte mais il manque beaucoup de fonctionnalites par rapport a la concurrence. Le design est agreable cependant.",
      "fr", "FR")
  ]

  /** Which seed the shuffle puts first. */
  type SeedIndex = i: nat | i < 5

  /** The review id `mock-<timestamp>-0`. */
  function MockReviewId(now: nat): string {
    "mock-" + NatToString(now) + "-0"
  }

  /** The review carries the seed's author, rating, text, language and territory. */
  predicate FromSeed(review: NormalizedReview, seed: Seed) {
    && review.authorName == seed.authorName && review.starRating == seed.starRating
    && review.originalText == seed.originalText && review.reviewerLanguage == seed.reviewerLanguage
    && review.territory == Some(seed.territory)
  }

  /** `fetchUnrespondedReviews`: exactly one review, copied from the chosen seed. */
  function FetchUnrespondedReviews(appId: string, appName: string, pick: SeedIndex, now: nat): (r: seq<NormalizedReview>)
    ensures |r| == 1
    ensures r[0].platform == Mock && r[0].appId == appId && r[0].appName == appName && r[0].translatedText.None?
    ensures exists s :: s in Seeds && FromSeed(r[0], s)
    ensures r[0].reviewId == MockReviewId(now)
  {
    var seed := Seeds[pick];
    var review := NormalizedReview(MockReviewId(now), Mock, appId, appName, seed.authorName, seed.starRating,
      seed.originalText, None, seed.reviewerLanguage, Some(seed.territory));
    assert seed in Seeds && FromSeed(review, seed);
    [review]
  }

  /** The timestamp in a mock review id can be read back from it. */
  lemma MockReviewIdTimestamp(now: nat)
    ensures var id := MockReviewId(now);
      |id| >= 8 && id[..5] == "mock-" && id[|id| - 2..] == "-0"
      && (forall i :: 5 <= i < |id| - 2 ==> '0' <= id[i] <= '9')
      && DigitsValue(id[5..|id| - 2]) == now
  {
    var id := MockReviewId(now);
    assert id[5..|id| - 2] == NatToString(now);
    NatToStringRoundTrip(now);
  }
}
