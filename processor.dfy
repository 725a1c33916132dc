/** The ingestion pass (src/services/review-processor.service.ts): for every configured
    app with credentials, fetch the unanswered reviews, and for every review not yet
    stored translate it, draft a reply, store it and announce it in Telegram.
    The methods are proved equal to the functions `ReviewStep`, `AppReviews`, `AppStep`
    and `Pass`, and the lemmas state what a pass does to the table. */
module ReviewProcessor {
  import opened Wrappers
  import opened Types
  import opened Schema
  import opened Repository
  import opened MessageFormatter
  import opened Config
  import AiService
  import Adapters

  /** What a pass talks to: the stores, the AI provider, Telegram's `sendMessage`
      (the message id, or None when sending fails) and the time of the pass. */
  datatype World = World(
    apis: Adapters.StoreApis,
    ai: AiService.AiProvider,
    sendMessage: (string, string, Keyboard) -> Option<int>,
    now: string)

  /** The table after some work, and how many reviews that work announced. */
  datatype Step = Step(rows: map<string, Row>, count: nat)

  /** A review's translation and drafted reply. */
  datatype Composed = Composed(translatedText: Option<string>, reply: GeneratedReply)

  /** The key a fetched review is stored under (`makeReviewId`, the same function as
      `makeCompositeKey`), from the app's platform and id. */
  function ReviewKey(platform: Platform, appId: string, review: NormalizedReview): string {
    MakeCompositeKey(PlatformName(platform), appId, review.reviewId)
  }

  /** The first draft of a review's reply, from its translation: no previous reply, no comments. */
  function DraftOf(review: NormalizedReview, translated: Option<string>, appContext: string, env: Env,
                   ai: AiService.AiProvider): Result<GeneratedReply, Error> {
    AiService.GenerateReply(AiService.DraftInput(review.originalText, translated, review.starRating, review.reviewerLanguage,
                                                 review.platform, review.appName, review.authorName),
                            appContext, None, None, env, ai)
  }

  /** Translate, then draft a first reply; either failure is the review's failure. */
  function Compose(review: NormalizedReview, appContext: string, env: Env, ai: AiService.AiProvider): (r: Result<Composed, Error>)
    ensures var t := AiService.TranslateText(review.originalText, review.reviewerLanguage, env, ai);
      r.Ok? <==> t.Ok? && DraftOf(review, t.value, appContext, env, ai).Ok?
    ensures r.Ok? ==> var d := DraftOf(review, r.value.translatedText, appContext, env, ai);
      d.Ok? && r.value.reply == d.value
    ensures r.Ok? ==> |r.value.reply.reply| <= AiService.CharLimit(review.platform)
    ensures r.Ok? ==> AiService.TranslateText(review.originalText, review.reviewerLanguage, env, ai) == Ok(r.value.translatedText)
  {
    var translated := AiService.TranslateText(review.originalText, review.reviewerLanguage, env, ai);
    if translated.Err? then Err(translated.error)
    else
      var draft := DraftOf(review, translated.value, appContext, env, ai);
      if draft.Err? then Err(draft.error) else Ok(Composed(translated.value, draft.value))
  }

  /** The values `processReview` inserts. */
  function NewRowOf(review: NormalizedReview, dbId: string, composed: Composed): NewRow {
    NewRow(dbId, review.platform, review.appId, review.appName, review.reviewId, Some(review.authorName),
           review.starRating, review.originalText, composed.translatedText, Some(review.reviewerLanguage),
           review.territory, Some(composed.reply.reply), Some(composed.reply.replyTranslated), None, None,
           Some(Pending))
  }

  /** `processReview`, counted 1 when it completes. */
  function ReviewStep(rows: map<string, Row>, review: NormalizedReview, dbId: string, appContext: string, env: Env, w: World): Step {
    var composed := Compose(review, appContext, env, w.ai);
    if composed.Err? then Step(rows, 0)
    else
      var inserted := Insert(rows, NewRowOf(review, dbId, composed.value), w.now);
      if inserted.Err? then Step(rows, 0)
      else Announce(inserted.value, dbId, env, w)
  }

  /** The end of `processReview`: send the stored row's message and, once it is sent,
      record the message; counted 1 only then. */
  function Announce(stored: map<string, Row>, dbId: string, env: Env, w: World): Step
    requires dbId in stored
  {
    var sent := w.sendMessage(env.telegramChatId, FormatReviewMessage(stored[dbId], env.preferredLanguageName), BuildReviewKeyboard(dbId));
    if sent.None? then Step(stored, 0)
    else Step(SetTelegramMsg(stored, dbId, sent.value, env.telegramChatId, w.now), 1)
  }

  /** The loop of `processApp` over the fetched reviews: a review whose key is stored is passed over. */
  function AppReviews(rows: map<string, Row>, reviews: seq<NormalizedReview>, platform: Platform, appId: string,
                      appContext: string, env: Env, w: World): Step
    decreases |reviews|
  {
    if reviews == [] then Step(rows, 0)
    else
      var dbId := ReviewKey(platform, appId, reviews[0]);
      if dbId in rows then AppReviews(rows, reviews[1..], platform, appId, appContext, env, w)
      else
        var first := ReviewStep(rows, reviews[0], dbId, appContext, env, w);
        var rest := AppReviews(first.rows, reviews[1..], platform, appId, appContext, env, w);
        Step(rest.rows, first.count + rest.count)
  }

  /** One iteration of `processAllApps`: an app without credentials, or whose fetch fails,
      adds nothing. */
  function AppStep(rows: map<string, Row>, app: AppConfig, env: Env, w: World): Step {
    if !CredentialsConfigured(app.platform, env) then Step(rows, 0)
    else
      var fetched := Adapters.Fetch(app.platform, app.id, app.name, w.apis);
      if fetched.Err? then Step(rows, 0)
      else AppReviews(rows, fetched.value, app.platform, app.id, app.replyContext, env, w)
  }

  /** `processAllApps`: the apps in order, the counts summed. */
  function Pass(rows: map<string, Row>, apps: seq<AppConfig>, env: Env, w: World): Step
    decreases |apps|
  {
    if apps == [] then Step(rows, 0)
    else
      var first := AppStep(rows, apps[0], env, w);
      var rest := Pass(first.rows, apps[1..], env, w);
      Step(rest.rows, first.count + rest.count)
  }

  // ---------------------------------------------------------------- properties

  /** `after` keeps every row of `before` as it was. */
  ghost predicate Extends(before: map<string, Row>, after: map<string, Row>) {
    forall k :: k in before ==> k in after && after[k] == before[k]
  }

  /** A row a pass added: pending, stored under its own composite key, with a reply that
      fits its store, from an app whose credentials are configured, and announced in
      the configured chat if at all. */
  predicate FreshRow(k: string, row: Row, env: Env) {
    && row.id == k
    && WellKeyed(row)
    && row.status == Pending
    && row.generatedReply.Some?
    && |row.generatedReply.value| <= AiService.CharLimit(row.platform)
    && CredentialsConfigured(row.platform, env)
    && (row.telegramMsgId.Some? ==> row.telegramChatId == Some(env.telegramChatId))
  }

  ghost predicate FreshRows(before: map<string, Row>, after: map<string, Row>, env: Env) {
    forall k :: k in after && k !in before ==> FreshRow(k, after[k], env)
  }

  /** The fields that make a row fresh are the same in both rows. */
  predicate SameContent(a: Row, b: Row) {
    SameKey(a, b) && a.status == b.status && a.generatedReply == b.generatedReply
  }

  /** Announcing touches only the announced row, and only its message reference; the
      reference is recorded exactly when the step counts. */
  lemma AnnounceEffect(stored: map<string, Row>, dbId: string, env: Env, w: World)
    requires dbId in stored && stored[dbId].telegramMsgId.None?
    ensures var s := Announce(stored, dbId, env, w);
      && s.rows.Keys == stored.Keys
      && (forall k :: k in stored && k != dbId ==> s.rows[k] == stored[k])
      && SameContent(s.rows[dbId], stored[dbId])
      && (s.count == 1 <==> s.rows[dbId].telegramMsgId.Some?)
      && (s.rows[dbId].telegramMsgId.Some? ==> s.rows[dbId].telegramChatId == Some(env.telegramChatId))
  {
  }

  /** One unseen review: old rows are kept, at most its own row is added, and it counts
      exactly when that row was added and its message reference recorded. */
  lemma ReviewStepEffect(rows: map<string, Row>, review: NormalizedReview, dbId: string, appContext: string, env: Env, w: World)
    requires dbId !in rows
    ensures var s := ReviewStep(rows, review, dbId, appContext, env, w);
      && Extends(rows, s.rows)
      && s.rows.Keys <= rows.Keys + {dbId}
      && |s.rows| == |rows| + (if dbId in s.rows then 1 else 0)
      && (s.count == 1 <==> dbId in s.rows && s.rows[dbId].telegramMsgId.Some?)
  {
    var composed := Compose(review, appContext, env, w.ai);
    if composed.Ok? {
      var stored := Insert(rows, NewRowOf(review, dbId, composed.value), w.now).value;
      assert |stored| == |rows| + 1;
      AnnounceEffect(stored, dbId, env, w);
    }
  }

  /** A review whose translation or draft fails leaves the table as it was, so the next
      pass meets it again; otherwise its row is stored pending with the drafted reply. */
  lemma ReviewStepStoresDraft(rows: map<string, Row>, review: NormalizedReview, dbId: string, appContext: string, env: Env, w: World)
    requires dbId !in rows
    ensures var s := ReviewStep(rows, review, dbId, appContext, env, w);
      Compose(review, appContext, env, w.ai).Err? ==> s == Step(rows, 0)
    ensures var s := ReviewStep(rows, review, dbId, appContext, env, w);
      var composed := Compose(review, appContext, env, w.ai);
      composed.Ok? ==> dbId in s.rows && s.rows[dbId].status == Pending && s.rows[dbId].generatedReply == Some(composed.value.reply.reply)
  {
    var composed := Compose(review, appContext, env, w.ai);
    if composed.Ok? {
      var stored := Insert(rows, NewRowOf(review, dbId, composed.value), w.now).value;
      AnnounceEffect(stored, dbId, env, w);
    }
  }

  /** A review that is not stored yet and belongs to the app becomes a fresh row. */
  lemma ReviewStepFresh(rows: map<string, Row>, review: NormalizedReview, platform: Platform, appId: string, appContext: string, env: Env, w: World)
    requires ReviewKey(platform, appId, review) !in rows
    requires review.platform == platform && review.appId == appId && CredentialsConfigured(platform, env)
    ensures FreshRows(rows, ReviewStep(rows, review, ReviewKey(platform, appId, review), appContext, env, w).rows, env)
  {
    var dbId := ReviewKey(platform, appId, review);
    var composed := Compose(review, appContext, env, w.ai);
    if composed.Ok? {
      var stored := Insert(rows, NewRowOf(review, dbId, composed.value), w.now).value;
      assert FreshRow(dbId, stored[dbId], env);
      AnnounceEffect(stored, dbId, env, w);
    }
  }

  /** Keeping old rows and adding only fresh ones compose. */
  lemma Chain(a: map<string, Row>, b: map<string, Row>, c: map<string, Row>, env: Env)
    requires Extends(a, b) && FreshRows(a, b, env)
    requires Extends(b, c) && FreshRows(b, c, env)
    ensures Extends(a, c) && FreshRows(a, c, env)
  {
  }

  /** One unseen review of a credentialed app keeps old rows, adds only a fresh one, and
      adds a row whenever it counts. */
  lemma ReviewStepGrows(rows: map<string, Row>, review: NormalizedReview, platform: Platform, appId: string, appContext: string, env: Env, w: World)
    requires ReviewKey(platform, appId, review) !in rows
    requires review.platform == platform && review.appId == appId && CredentialsConfigured(platform, env)
    ensures var s := ReviewStep(rows, review, ReviewKey(platform, appId, review), appContext, env, w);
      Extends(rows, s.rows) && FreshRows(rows, s.rows, env) && |s.rows| >= |rows| + s.count
  {
    ReviewStepEffect(rows, review, ReviewKey(platform, appId, review), appContext, env, w);
    ReviewStepFresh(rows, review, platform, appId, appContext, env, w);
  }

  /** The review loop keeps old rows, adds only fresh ones, and each review it counts
      added a row. */
  lemma {:induction false} AppReviewsEffect(rows: map<string, Row>, reviews: seq<NormalizedReview>, platform: Platform, appId: string,
                                            appContext: string, env: Env, w: World)
    requires forall r :: r in reviews ==> r.platform == platform && r.appId == appId
    requires CredentialsConfigured(platform, env)
    ensures var s := AppReviews(rows, reviews, platform, appId, appContext, env, w);
      Extends(rows, s.rows) && FreshRows(rows, s.rows, env) && |s.rows| >= |rows| + s.count
    decreases |reviews|
  {
    if reviews != [] {
      var dbId := ReviewKey(platform, appId, reviews[0]);
      assert reviews[0] in reviews;
      assert forall r :: r in reviews[1..] ==> r in reviews;
      if dbId in rows {
        AppReviewsEffect(rows, reviews[1..], platform, appId, appContext, env, w);
      } else {
        var first := ReviewStep(rows, reviews[0], dbId, appContext, env, w);
        ReviewStepGrows(rows, reviews[0], platform, appId, appContext, env, w);
        var rest := AppReviews(first.rows, reviews[1..], platform, appId, appContext, env, w);
        AppReviewsEffect(first.rows, reviews[1..], platform, appId, appContext, env, w);
        Chain(rows, first.rows, rest.rows, env);
      }
    }
  }

  /** A whole pass never alters a stored row, adds only fresh rows, and announces at
      most as many reviews as it added rows. */
  lemma {:induction false} PassEffect(rows: map<string, Row>, apps: seq<AppConfig>, env: Env, w: World)
    ensures var s := Pass(rows, apps, env, w);
      Extends(rows, s.rows) && FreshRows(rows, s.rows, env) && |s.rows| >= |rows| + s.count
    decreases |apps|
  {
    if apps != [] {
      var app := apps[0];
      var first := AppStep(rows, app, env, w);
      if CredentialsConfigured(app.platform, env) {
        var fetched := Adapters.Fetch(app.platform, app.id, app.name, w.apis);
        if fetched.Ok? {
          AppReviewsEffect(rows, fetched.value, app.platform, app.id, app.replyContext, env, w);
        }
      }
      var rest := Pass(first.rows, apps[1..], env, w);
      PassEffect(first.rows, apps[1..], env, w);
      Chain(rows, first.rows, rest.rows, env);
    }
  }

  /** A review whose key is already stored costs nothing: whatever the AI provider and
      Telegram would do, the loop leaves the table as it is and counts nothing. */
  lemma {:induction false} KnownReviewsCostNothing(rows: map<string, Row>, reviews: seq<NormalizedReview>, platform: Platform, appId: string,
                                                   appContext: string, env: Env, w: World)
    requires forall r :: r in reviews ==> ReviewKey(platform, appId, r) in rows
    ensures AppReviews(rows, reviews, platform, appId, appContext, env, w) == Step(rows, 0)
    decreases |reviews|
  {
    if reviews != [] {
      assert reviews[0] in reviews;
      KnownReviewsCostNothing(rows, reviews[1..], platform, appId, appContext, env, w);
    }
  }

  /** Every review the app's fetch yields, if the app is reached and the fetch succeeds,
      is stored already. */
  ghost predicate AppKnown(rows: map<string, Row>, app: AppConfig, env: Env, w: World) {
    var fetched := Adapters.Fetch(app.platform, app.id, app.name, w.apis);
    CredentialsConfigured(app.platform, env) && fetched.Ok? ==>
      forall r :: r in fetched.value ==> ReviewKey(app.platform, app.id, r) in rows
  }

  /** Every review the pass would reach is stored already. */
  ghost predicate AllKnown(rows: map<string, Row>, apps: seq<AppConfig>, env: Env, w: World) {
    forall app :: app in apps ==> AppKnown(rows, app, env, w)
  }

  /** A pass over reviews that are all stored is idle: repeating a pass adds nothing for
      the reviews the first one stored. */
  lemma {:induction false} PassIdleWhenAllKnown(rows: map<string, Row>, apps: seq<AppConfig>, env: Env, w: World)
    requires AllKnown(rows, apps, env, w)
    ensures Pass(rows, apps, env, w) == Step(rows, 0)
    decreases |apps|
  {
    if apps != [] {
      var app := apps[0];
      assert app in apps;
      if CredentialsConfigured(app.platform, env) {
        var fetched := Adapters.Fetch(app.platform, app.id, app.name, w.apis);
        if fetched.Ok? {
          KnownReviewsCostNothing(rows, fetched.value, app.platform, app.id, app.replyContext, env, w);
        }
      }
      assert AllKnown(rows, apps[1..], env, w) by {
        forall app | app in apps[1..] ensures app in apps { }
      }
      PassIdleWhenAllKnown(rows, apps[1..], env, w);
    }
  }

  /** An app that is skipped (no credentials) or whose fetch fails is as if it were not
      configured: the apps after it are processed exactly as without it. */
  lemma {:induction false} SkippedAppIsAbsent(rows: map<string, Row>, before: seq<AppConfig>, app: AppConfig, after: seq<AppConfig>, env: Env, w: World)
    requires !CredentialsConfigured(app.platform, env) || Adapters.Fetch(app.platform, app.id, app.name, w.apis).Err?
    ensures Pass(rows, before + [app] + after, env, w) == Pass(rows, before + after, env, w)
    decreases |before|
  {
    if before == [] {
      assert before + [app] + after == [app] + after;
      assert ([app] + after)[1..] == after;
      assert before + after == after;
    } else {
      assert (before + [app] + after)[0] == before[0] && (before + after)[0] == before[0];
      assert (before + [app] + after)[1..] == before[1..] + [app] + after;
      assert (before + after)[1..] == before[1..] + after;
      SkippedAppIsAbsent(AppStep(rows, before[0], env, w).rows, before[1..], app, after, env, w);
    }
  }

  /** What the review loop does with one review: pass over it when its key is stored,
      otherwise process it. */
  function Visit(rows: map<string, Row>, review: NormalizedReview, platform: Platform, appId: string,
                 appContext: string, env: Env, w: World): Step {
    var dbId := ReviewKey(platform, appId, review);
    if dbId in rows then Step(rows, 0) else ReviewStep(rows, review, dbId, appContext, env, w)
  }

  /** The review loop is the first review's visit followed by the loop over the rest. */
  lemma AppReviewsCons(rows: map<string, Row>, review: NormalizedReview, rest: seq<NormalizedReview>, platform: Platform,
                       appId: string, appContext: string, env: Env, w: World)
    ensures var first := Visit(rows, review, platform, appId, appContext, env, w);
      var tail := AppReviews(first.rows, rest, platform, appId, appContext, env, w);
      AppReviews(rows, [review] + rest, platform, appId, appContext, env, w) == Step(tail.rows, first.count + tail.count)
  {
    assert ([review] + rest)[0] == review && ([review] + rest)[1..] == rest;
  }

  /** A review whose translation or drafting fails leaves the table as it was. */
  lemma FailedVisitIsIdle(rows: map<string, Row>, r: NormalizedReview, platform: Platform, appId: string,
                          appContext: string, env: Env, w: World)
    requires Compose(r, appContext, env, w.ai).Err?
    ensures Visit(rows, r, platform, appId, appContext, env, w) == Step(rows, 0)
  {
    var dbId := ReviewKey(platform, appId, r);
    if dbId !in rows {
      ReviewStepStoresDraft(rows, r, dbId, appContext, env, w);
    }
  }

  /** A review whose translation or drafting fails is as if it had not been fetched:
      the reviews after it are processed exactly as without it. */
  lemma {:induction false} FailedReviewIsAbsent(rows: map<string, Row>, before: seq<NormalizedReview>, r: NormalizedReview,
                                                after: seq<NormalizedReview>, platform: Platform, appId: string,
                                                appContext: string, env: Env, w: World)
    requires Compose(r, appContext, env, w.ai).Err?
    ensures AppReviews(rows, before + [r] + after, platform, appId, appContext, env, w)
      == AppReviews(rows, before + after, platform, appId, appContext, env, w)
    decreases |before|
  {
    if before == [] {
      assert before + [r] + after == [r] + after;
      assert before + after == after;
      AppReviewsCons(rows, r, after, platform, appId, appContext, env, w);
      FailedVisitIsIdle(rows, r, platform, appId, appContext, env, w);
    } else {
      var x := before[0];
      assert before + [r] + after == [x] + (before[1..] + [r] + after);
      assert before + after == [x] + (before[1..] + after);
      AppReviewsCons(rows, x, before[1..] + [r] + after, platform, appId, appContext, env, w);
      AppReviewsCons(rows, x, before[1..] + after, platform, appId, appContext, env, w);
      var first := Visit(rows, x, platform, appId, appContext, env, w);
      FailedReviewIsAbsent(first.rows, before[1..], r, after, platform, appId, appContext, env, w);
    }
  }

  // ---------------------------------------------------------------- the pass itself

  /** `processReview`; `ok` is whether it completed. */
  method ProcessReview(store: ReviewStore, review: NormalizedReview, dbId: string, appContext: string, env: Env, w: World)
    returns (ok: bool)
    requires store.Valid()
    modifies store
    ensures store.Valid()
    ensures Step(store.rows, if ok then 1 else 0) == ReviewStep(old(store.rows), review, dbId, appContext, env, w)
  {
    var composed := Compose(review, appContext, env, w.ai);
    if composed.Err? {
      return false;
    }
    var inserted := store.InsertReview(NewRowOf(review, dbId, composed.value), w.now);
    if inserted.Err? {
      return false;
    }
    // The row was inserted a moment ago, so reading it back cannot fail.
    var stored := store.FindById(dbId);
    var text := FormatReviewMessage(stored.value, env.preferredLanguageName);
    var sent := w.sendMessage(env.telegramChatId, text, BuildReviewKeyboard(dbId));
    if sent.None? {
      return false;
    }
    store.UpdateReviewTelegramMsg(dbId, sent.value, env.telegramChatId, w.now);
    return true;
  }

  /** `processApp`: Err when the fetch fails (the exception `processAllApps` catches),
      else the number of reviews announced. */
  method ProcessApp(store: ReviewStore, platform: Platform, appId: string, appName: string, appContext: string, env: Env, w: World)
    returns (r: Result<nat, Error>)
    requires store.Valid()
    modifies store
    ensures store.Valid()
    ensures var fetched := Adapters.Fetch(platform, appId, appName, w.apis);
      && (fetched.Err? ==> r == Err(fetched.error) && store.rows == old(store.rows))
      && (fetched.Ok? ==> r.Ok? && Step(store.rows, r.value) == AppReviews(old(store.rows), fetched.value, platform, appId, appContext, env, w))
  {
    var fetched := Adapters.FetchUnrespondedReviews(platform, appId, appName, w.apis);
    if fetched.Err? {
      return Err(fetched.error);
    }
    var reviews := fetched.value;
    ghost var target := AppReviews(store.rows, reviews, platform, appId, appContext, env, w);
    var count: nat := 0;
    for i := 0 to |reviews|
      invariant store.Valid()
      invariant AppReviews(store.rows, reviews[i..], platform, appId, appContext, env, w).rows == target.rows
      invariant count + AppReviews(store.rows, reviews[i..], platform, appId, appContext, env, w).count == target.count
    {
      assert reviews[i..][0] == reviews[i] && reviews[i..][1..] == reviews[i + 1..];
      var dbId := ReviewKey(platform, appId, reviews[i]);
      var known := store.ReviewExists(dbId);
      if !known {
        var ok := ProcessReview(store, reviews[i], dbId, appContext, env, w);
        if ok {
          count := count + 1;
        }
      }
    }
    assert reviews[|reviews|..] == [];
    return Ok(count);
  }

  /** `processAllApps`: the number of reviews announced in this pass. */
  method ProcessAllApps(store: ReviewStore, apps: seq<AppConfig>, env: Env, w: World) returns (newCount: nat)
    requires store.Valid()
    modifies store
    ensures store.Valid()
    ensures Step(store.rows, newCount) == Pass(old(store.rows), apps, env, w)
  {
    ghost var target := Pass(store.rows, apps, env, w);
    newCount := 0;
    for i := 0 to |apps|
      invariant store.Valid()
      invariant Pass(store.rows, apps[i..], env, w).rows == target.rows
      invariant newCount + Pass(store.rows, apps[i..], env, w).count == target.count
    {
      assert apps[i..][0] == apps[i] && apps[i..][1..] == apps[i + 1..];
      var app := apps[i];
      if !CredentialsConfigured(app.platform, env) {
        continue;
      }
      var added := ProcessApp(store, app.platform, app.id, app.name, app.replyContext, env, w);
      if added.Ok? {
        newCount := newCount + added.value;
      }
    }
    assert apps[|apps|..] == [];
  }
}
