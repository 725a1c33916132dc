# AI Review Responder Bot — a verified model of its core

The bot polls the Google Play and App Store Connect review APIs, plus a mock store, for
reviews the developer has not answered. It translates each new review into the operator's
language and has OpenAI draft a reply that fits the store's character limit. It stores the
review in SQLite under a composite key and posts it to a Telegram chat with two inline
buttons: "Send Reply" submits the stored reply to the store, "Skip" sets the review aside.
When the operator answers the review's Telegram message with a comment, the reply is
redrafted with that comment.

This project models that core in Dafny, one module per source file:

| file | module | models |
|---|---|---|
| `wrappers.dfy` | `Wrappers` | `Option` for `T \| null`, `Result` for calls that may throw |
| `types.dfy` | `Types` | platforms, statuses, errors, `NormalizedReview`, `AppConfig`, `GeneratedReply` |
| `strings.dfy` | `Strings` | the JavaScript string operations used: `slice(0, n)`, `trim`, `startsWith`/`endsWith`, `repeat`, decimal rendering |
| `schema.dfy` | `Schema` | the `reviews` row with its nullable columns and defaults |
| `repository.dfy` | `Repository` | the composite key, and the table as a class over `map<string, Row>` with its queries and updates |
| `config.dfy` | `Config` | reply-context resolution, the credentials checks, the loading of `apps.json` entries |
| `ai.dfy` | `AiService` | character limits, prompt structure, `generateReply` and `translateText` over an AI oracle |
| `google_play.dfy`, `app_store.dfy`, `mock.dfy` | `GooglePlay`, `AppStore`, `MockStore` | the three adapters: filtering, normalising, the paging loops, truncation of submitted replies |
| `adapters.dfy` | `Adapters` | the adapter interface, dispatched on the platform |
| `formatter.dfy` | `MessageFormatter` | HTML escaping, stars, the two Telegram messages, the keyboard |
| `callbacks.dfy` | `Callbacks` | the send and skip button handlers |
| `reply_handler.dfy` | `ReplyHandler` | redrafting a reply from the operator's comment |
| `processor.dfy` | `ReviewProcessor` | the ingestion pass over apps and reviews |

Code that updates state step by step is modelled imperatively:
- the table is the class `Repository.ReviewStore`;
- the paging loops, the ingestion pass and the handlers are methods with loops;
- each method's `ensures` ties its result and the new table to a function of the old
  table (`GooglePlay.Listing`, `ReviewProcessor.Pass`, `Callbacks.SendEffect`, …);
- the lemmas state what the source promises about those functions.

External services are parameters:
- each store API is the sequence of responses to successive page requests;
- OpenAI is a function from prompt to content;
- Telegram's `sendMessage` is a function returning a message id or failure;
- whether a message edit succeeds is a boolean;
- the clock is an abstract timestamp.

Where the code departs from the intended behaviour, the model follows the code:
- Sending refuses only a `replied` review (`src/bot/callbacks.ts:35-40`), so a skipped
  review can still be sent (`Callbacks.SendAfterSkip`).
- Skipping has no status check at all (`src/bot/callbacks.ts:86-92`), so a replied
  review can be set to skipped. Sending it afterwards submits the reply a second time.
- Redrafting refuses only a `replied` review (`src/bot/reply-handler.ts:24-29`), so a
  skipped review's reply can still be rewritten. Statuses are therefore not terminal.
- Every lookup followed by an update is two steps; there is no atomic check-then-act.
- The Google Play listing has no cap on the number of reviews it collects. The App Store
  listing stops once 200 or more have been collected, so it can return up to 249
  (`AppStore.ListingBounded`).
- The processor imports `makeReviewId`, which the repository does not export; it is the
  repository's `makeCompositeKey`.
- `findReviewById` is typed with a numeric id, but the key is the text composite key.
- `findReviewByCompositeKey` queries a `compositeKey` column the schema does not have.
  Both lookups are modelled as lookups of the primary key `id`.

## Model

| member | source | states |
|---|---|---|
| Types.ParsePlatform | src/types/index.ts:1-7 | exactly `google_play`, `app_store` and `mock` are platforms, each read back as the platform it names |
| Types.PlatformNameRoundTrip | src/types/index.ts:1-7 | a platform's name reads back as that platform and contains no colon |
| Types.ParseStatus | src/types/index.ts:9-15 | exactly `pending`, `replied` and `skipped` are statuses |
| Types.StatusNameRoundTrip | src/types/index.ts:9-15 | a status's name reads back as that status |
| Strings.Truncate | src/services/ai.service.ts:62 | `slice(0, n)` yields a prefix of at most n characters, all of a shorter text, exactly n of a longer one |
| Strings.TruncateAgain | src/platforms/google-play.adapter.ts:70 | cutting an already cut text to the same or a larger bound changes nothing |
| Strings.Trim | src/config.ts:65 | `trim` removes exactly the leading and trailing white space: the result is a slice of the text, everything before and after it is white space, and it neither starts nor ends with white space |
| Strings.TrimEmptyIff | src/config.ts:65-66 | trimming gives the empty text exactly when every character is white space |
| Strings.TrimIdempotent | src/config.ts:83 | trimming twice is trimming once |
| Strings.NatToString | src/bot/message-formatter.ts:27 | the rating is written as a non-empty string of decimal digits |
| Strings.NatToStringRoundTrip | src/bot/message-formatter.ts:27 | the written digits have the value of the number |
| Schema.ApplyDefaults | src/db/schema.ts:3-27 | an inserted row keeps the given values; a missing status is `pending`, a missing author `Anonymous`, a missing language `en`; reply and message columns stay as given (absent); both timestamps are the insert time |
| Repository.MakeCompositeKey | src/db/review.repository.ts:5-11 | the key is the platform, a colon, the app id, a colon and the review id, in that order and nothing else |
| Repository.CompositeKeyRoundTrip | src/db/review.repository.ts:5-11 | with colon-free platform and app id, the key splits back into platform, app id and review id |
| Repository.CompositeKeyInjective | src/db/review.repository.ts:5-11 | with colon-free platforms and app ids, equal keys mean equal triples |
| Repository.Insert | src/db/review.repository.ts:44-46 | an insert fails exactly when the id is present; otherwise it adds exactly the defaulted row and keeps every other row |
| Repository.InsertThenFindAndReject | src/db/connection.ts:19 | after an insert the row is found under its id with its status, and a second insert of the same id fails with a duplicate key |
| Repository.SetReply | src/db/review.repository.ts:48-61 | only the reply, its translation and `updatedAt` of the matching row change; the set of rows and every other row are unchanged |
| Repository.SetTelegramMsg | src/db/review.repository.ts:63-76 | only the message id, chat id and `updatedAt` of the matching row change |
| Repository.SetStatus | src/db/review.repository.ts:78-96 | only the status and `updatedAt` of the matching row change; an absent id changes nothing |
| Repository.SetStatusUnconditional | src/db/review.repository.ts:78-96 | the new status is set whatever the old one was, and no row is added or removed |
| Repository.SetReplyKeepsKeys | src/db/review.repository.ts:48-61 | a table where every row sits under its own composite key stays so |
| Repository.SetTelegramMsgKeepsKeys | src/db/review.repository.ts:63-76 | as above, for recording the Telegram message |
| Repository.SetStatusKeepsKeys | src/db/review.repository.ts:78-96 | as above, for a status change |
| Repository.ReviewStore.FindById | src/db/review.repository.ts:13-25 | a row is found exactly when its id is stored, and it is the stored row |
| Repository.ReviewStore.FindByTelegramMsg | src/db/review.repository.ts:27-38 | the row found matches both message id and chat id; nothing is found exactly when no row matches |
| Repository.ReviewStore.ReviewExists | src/db/review.repository.ts:40-42 | true exactly when the key is stored |
| Repository.ReviewStore.InsertReview | src/db/review.repository.ts:44-46 | a duplicate id fails and leaves the table; otherwise the defaulted row is added and returned |
| Repository.ReviewStore.UpdateReviewReply | src/db/review.repository.ts:48-61 | the new table is `SetReply` of the old one |
| Repository.ReviewStore.UpdateReviewTelegramMsg | src/db/review.repository.ts:63-76 | the new table is `SetTelegramMsg` of the old one |
| Repository.ReviewStore.MarkReviewReplied | src/db/review.repository.ts:78-86 | the new table is the old one with the status set to `replied` |
| Repository.ReviewStore.MarkReviewSkipped | src/db/review.repository.ts:88-96 | the new table is the old one with the status set to `skipped` |
| Config.ResolveReplyContext | src/config.ts:64-84 | blank gives empty; text that does not look like a path (`.md`, `.txt`, `./`, `/`) is kept trimmed; a path fails exactly when the file is missing (`MissingFile`) or exists but cannot be read, such as a directory (`UnreadableFile`), and otherwise gives the file's trimmed contents; a result has no surrounding white space |
| Config.IsGooglePlayConfigured | src/config.ts:123-125 | configured exactly when the service-account key file exists |
| Config.IsAppStoreConfigured | src/config.ts:127-133 | configured exactly when key id and issuer id are non-empty and the key file exists |
| Config.CredentialsConfigured | src/services/review-processor.service.ts:39-53 | a Google Play app is processed exactly when its key file exists, an App Store app exactly when key id and issuer id are set and the key file exists, a mock app always |
| Config.ResolveEntry | src/config.ts:109-112 | an entry resolves exactly when its reply context does; the resolved entry keeps name, platform and id and carries the resolved context |
| Config.MapAll | src/config.ts:109-112 | mapping a throwing callback succeeds exactly when every element succeeds, yielding each element's value in order; otherwise the error is the first failing element's, and every element before it succeeded |
| Config.ResolveApps | src/config.ts:109-112 | succeeds exactly when every entry resolves, with one result per entry in order; a failure carries the error of the first entry that fails |
| Config.ResolveAppsKeepsEntries | src/config.ts:109-112 | every loaded entry keeps name, platform and id, and its context is what `resolveReplyContext` gives for the entry's own context |
| Config.LoadApps | src/config.ts:105-112 | an empty list is rejected; a non-empty list is resolved entry by entry, as `Config.ResolveApps` states; a loaded list has as many entries as the file |
| AiService.CharLimit | src/services/ai.service.ts:6-10 | 5970 for the App Store, 350 for Google Play and the mock |
| AiService.StoreLabel | src/services/ai.service.ts:106-110 | the store names `Google Play Store`, `Apple App Store` and `Mock Store` |
| AiService.BuildSystemPrompt | src/services/ai.service.ts:112-139 | a Context line exactly when the context is non-empty, carrying it; the limit, app and store label always stated |
| AiService.BuildUserPrompt | src/services/ai.service.ts:141-174 | the translation section iff a non-empty translation; the revision section iff both previous reply and comments are non-empty, carrying both; `auto` becomes auto-detect |
| AiService.GenerateReply | src/services/ai.service.ts:14-77 | a failed request, an empty content or unparsable content is an error and nothing else is; the reply is a prefix of the provider's within the limit, unchanged when it fits; the translation is passed through |
| AiService.TranslateText | src/services/ai.service.ts:79-104 | nothing is asked for the preferred language; otherwise the trimmed content, null without content, the error of a failed request |
| AiService.TranslateSkipsProvider | src/services/ai.service.ts:83 | for the preferred language the result is null whatever the provider does |
| AiService.GeneratedReplyFitsStore | src/services/ai.service.ts:62 | a generated reply is not cut again by the store limit |
| GooglePlay.Normalize | src/platforms/google-play.adapter.ts:86-106 | no review without a first user comment; otherwise its fields with the defaults `''`, `Anonymous`, 0, `''`, `auto`, no territory, no translation |
| GooglePlay.Unresponded | src/platforms/google-play.adapter.ts:46-51 | every kept review is Google Play, of this app, and the normalisation of an unanswered review of the page; that every such review is kept, in page order, is `GooglePlay.UnansweredKept` |
| GooglePlay.CollectPage | src/platforms/google-play.adapter.ts:44-51 | the loop keeps exactly the unanswered normalisable reviews, in order |
| GooglePlay.FetchUnrespondedReviews | src/platforms/google-play.adapter.ts:29-62 | the do-while loop's result is the page-by-page listing, fetching on while a non-empty token is returned |
| GooglePlay.ListingTagged | src/platforms/google-play.adapter.ts:94-98 | every fetched review carries Google Play and the caller's app id and name |
| GooglePlay.HasDeveloperReply | src/platforms/google-play.adapter.ts:81-84 | true exactly when some comment of the review carries a developer comment; a review without comments has none |
| GooglePlay.UnrespondedSingle | src/platforms/google-play.adapter.ts:46-51 | a one-review page yields that review normalised when it is unanswered and has a user comment, and nothing otherwise |
| GooglePlay.UnrespondedAppend | src/platforms/google-play.adapter.ts:46-51 | filtering a page is filtering its parts and joining the results in page order |
| GooglePlay.AnsweredOrEmptyExcluded | src/platforms/google-play.adapter.ts:46-50 | wherever it stands in the page, a review with a developer comment, or without a user comment, contributes nothing: the result is that of the page without it |
| GooglePlay.UnansweredKept | src/platforms/google-play.adapter.ts:46-51 | wherever it stands in the page, an unanswered review with a user comment is kept, normalised, between what the reviews before and after it yield |
| GooglePlay.StopsWithoutToken | src/platforms/google-play.adapter.ts:53-54 | after a page without a next-page token no further response is read |
| AppStore.Normalize | src/platforms/app-store.adapter.ts:146-166 | App Store, the caller's app, the review id, `title\nbody` text, `Anonymous` and `USA` defaults, language `auto`, no translation |
| AppStore.NormalizeAll | src/platforms/app-store.adapter.ts:96-98 | every review of the page, normalised, in order |
| AppStore.CollectPage | src/platforms/app-store.adapter.ts:96-98 | the loop pushes exactly the normalised page |
| AppStore.FetchUnrespondedReviews | src/platforms/app-store.adapter.ts:79-112 | the while loop's result is the listing that follows `links.next` until it is absent or 200 are collected |
| AppStore.ListingTagged | src/platforms/app-store.adapter.ts:154-158 | every fetched review carries the App Store and the caller's app id and name |
| AppStore.ListingBounded | src/platforms/app-store.adapter.ts:102-103 | with pages of at most 50, fewer than 250 reviews are collected |
| AppStore.StopsAtCap | src/platforms/app-store.adapter.ts:100-103 | once 200 are collected no further response is read |
| MockStore.FetchUnrespondedReviews | src/platforms/mock.adapter.ts:59-85 | exactly one review, copied from a seed, tagged mock and the caller's app, id `mock-<now>-0` |
| MockStore.MockReviewIdTimestamp | src/platforms/mock.adapter.ts:67 | the id is `mock-`, the decimal timestamp and `-0`, and the timestamp reads back |
| Adapters.Fetch | src/services/review-processor.service.ts:81-82 | the result is the listing of the platform's own adapter (Google Play's page loop, the App Store's capped loop from 0 collected, the mock's single review), and every review it yields carries that platform and the app |
| Adapters.FetchUnrespondedReviews | src/platforms/platform.interface.ts:6-9 | the dispatched loop yields `Fetch`'s result |
| Adapters.ReplyText | src/platforms/google-play.adapter.ts:70 | the submitted text is a prefix of the reply of at most the store's limit (350 here, 5970 at src/platforms/app-store.adapter.ts:119), the whole reply when it fits and exactly the limit when it does not |
| Adapters.Submitted | src/platforms/platform.interface.ts:11-15 | the stores receive the reply cut to their own limit, unchanged when it fits; the mock submits nothing |
| Adapters.ReplyToReview | src/platforms/platform.interface.ts:11-15 | a store reply succeeds exactly when the store accepts the submitted (cut) text; the mock's reply always succeeds (src/platforms/mock.adapter.ts:87-96) |
| MessageFormatter.RenderStars | src/bot/message-formatter.ts:5-7 | exactly n star characters |
| MessageFormatter.EscapeHtml | src/bot/message-formatter.ts:9-14 | the three global replacements equal the per-character escape `EscapeEach`: every character is escaped exactly once |
| MessageFormatter.ReplacePassesChar | src/bot/message-formatter.ts:9-14 | on one character the three passes give `&amp;`, `&lt;`, `&gt;` or the character itself |
| MessageFormatter.ReplacePassesAppend | src/bot/message-formatter.ts:9-14 | escaping distributes over concatenation |
| MessageFormatter.ReplacePassesIsEscapeEach | src/bot/message-formatter.ts:9-14 | the three passes escape each character exactly once (no double escaping of `&`) |
| MessageFormatter.EscapeHtmlNoAngles | src/bot/message-formatter.ts:9-14 | escaped text contains no `<` and no `>` |
| MessageFormatter.EscapeHtmlIdentity | src/bot/message-formatter.ts:9-14 | text without `&`, `<`, `>` is unchanged |
| MessageFormatter.EscapeHtmlRoundTrip | src/bot/message-formatter.ts:9-14 | an HTML reader recovers the original text from the escaped one |
| MessageFormatter.PlatformLabel | src/bot/message-formatter.ts:16-20 | `Google Play`, `Mock Store`, and `App Store` for anything else |
| MessageFormatter.FormatReviewMessage | src/bot/message-formatter.ts:22-57 | the review message is the concatenation of the parts whose sections `ReviewMessageSections` states, and it ends with the invitation to comment |
| MessageFormatter.FormatRepliedMessage | src/bot/message-formatter.ts:59-93 | the sent message is the concatenation of the parts whose sections `RepliedMessageSections` states, and it ends with the success line |
| MessageFormatter.TranslationSectionMarkers | src/bot/message-formatter.ts:35-38 | the translation header appears iff the translation is non-empty |
| MessageFormatter.ReplyTranslationSectionMarkers | src/bot/message-formatter.ts:45-51 | the reply-translation header appears iff that translation is non-empty and differs from the reply |
| MessageFormatter.DraftSectionMarkers | src/bot/message-formatter.ts:40-52 | the draft label appears iff there is a reply; the reply translation only inside it |
| MessageFormatter.SentSectionMarkers | src/bot/message-formatter.ts:77-88 | the sent section holds no draft label, no invitation and no review translation |
| MessageFormatter.ReviewMessageSections | src/bot/message-formatter.ts:22-57 | the review message has the translation iff non-empty, the draft iff a reply exists, the reply translation iff there is a reply and its translation is non-empty and differs |
| MessageFormatter.RepliedMessageSections | src/bot/message-formatter.ts:59-93 | the sent message has the translation iff non-empty, the reply translation iff non-empty and different, and neither draft label nor invitation |
| MessageFormatter.BuildReviewKeyboard | src/bot/message-formatter.ts:95-99 | two buttons carrying `reply:<id>` and `skip:<id>` |
| Callbacks.MatchAfter | src/bot/callbacks.ts:22-23 | `/^prefix(.+)$/` matches exactly the prefix followed by a non-empty single line, and captures that line |
| Callbacks.ParseCallbackData | src/bot/callbacks.ts:22-23 | every datum `/^reply:(.+)$/` accepts reaches the send handler with the captured id, every datum `/^skip:(.+)$/` accepts reaches the skip handler (src/bot/callbacks.ts:81-83); data starting with neither prefix reaches no handler; an accepted datum is the prefix followed by a non-empty single-line id |
| Callbacks.ActionDataRoundTrip | src/bot/callbacks.ts:22-23 | the data of every send or skip action with a non-empty single-line id parses back to that action |
| Callbacks.KeyboardRoundTrip | src/bot/message-formatter.ts:95-99 | a review's two buttons reach the send and the skip handler with the review's own id |
| Callbacks.SkippedText | src/bot/callbacks.ts:94-98 | the message gets `⏭ Skipped.` appended after a blank line, or becomes it when empty |
| Callbacks.SendGuards | src/bot/callbacks.ts:27-54 | an unknown id, a replied review or one without a reply gets an answer and nothing else; otherwise the stored reply goes to the adapter |
| Callbacks.SendMarksRepliedOnlyAfterSubmission | src/bot/callbacks.ts:49-77 | the table changes, by the status becoming replied, exactly when the adapter accepted the reply; a rejected submission leaves the table and is answered with the `Failed to send reply` alert |
| Callbacks.SendTwiceSubmitsOnce | src/bot/callbacks.ts:35-40 | after a successful send a second press submits nothing and answers "Already replied" |
| Callbacks.SendEditFailureKeepsReplied | src/bot/callbacks.ts:56-78 | a failed message edit after submission leaves the review replied but answers with the failure alert |
| Callbacks.SkipIsUnconditional | src/bot/callbacks.ts:86-92 | any stored review becomes skipped whatever its status; nothing is submitted |
| Callbacks.SendAfterSkip | src/bot/callbacks.ts:35-40 | a skipped review with a reply is still submitted |
| Callbacks.HandleSend | src/bot/callbacks.ts:22-79 | the handler's table and outcome are `SendEffect` of the old table |
| Callbacks.HandleSkip | src/bot/callbacks.ts:81-109 | the handler's table and outcome are `SkipEffect` of the old table |
| Callbacks.HandleCallback | src/bot/callbacks.ts:21-109 | data matching neither pattern does nothing; otherwise the matching handler runs on the captured id |
| ReplyHandler.AppContextFor | src/bot/reply-handler.ts:32-34 | the context of the first app with this id and platform, or empty text when there is none |
| ReplyHandler.RepliedIsRefused | src/bot/reply-handler.ts:24-29 | a replied review gets one notice and nothing is regenerated or stored |
| ReplyHandler.RegenerateTouchesOnlyReply | src/bot/reply-handler.ts:41-56 | no status and no other row changes; a refused or failed generation changes nothing |
| ReplyHandler.RegenerateStoresNewDraft | src/bot/reply-handler.ts:56-71 | the stored reply and translation are the new draft, within the store limit; the message is redrawn, with the same keyboard and the invitation, exactly when the edit succeeds |
| ReplyHandler.CommentBecomesRevision | src/bot/reply-handler.ts:41-54 | the draft request carries the stored reply and the comment as a revision when both are non-empty |
| ReplyHandler.Regenerate | src/bot/reply-handler.ts:24-83 | the table and replies after a found review are `RegenerateEffect` of the old table |
| ReplyHandler.HandleComment | src/bot/reply-handler.ts:14-84 | a message answering nothing, from another chat, or answering no stored review's message is ignored; otherwise the review whose message it answers is handled by `RegenerateEffect` |
| ReviewProcessor.Compose | src/services/review-processor.service.ts:116-132 | it fails exactly when `translateText` fails or the first draft (no previous reply, no comments) from its translation fails; the reply is that draft, fits the platform limit, and the stored translation is `translateText`'s result |
| ReviewProcessor.AnnounceEffect | src/services/review-processor.service.ts:156-164 | sending touches only the review's message reference, recorded in the configured chat exactly when the send succeeds |
| ReviewProcessor.ReviewStepEffect | src/services/review-processor.service.ts:110-174 | a new review keeps every stored row, adds at most its own row, and counts exactly when that row was added and announced |
| ReviewProcessor.ReviewStepStoresDraft | src/services/review-processor.service.ts:116-149 | a failed translation or draft leaves the table; otherwise the row is stored pending with the draft |
| ReviewProcessor.ReviewStepFresh | src/services/review-processor.service.ts:134-164 | the row added is under its own composite key, pending, with a reply within the limit, announced only in the configured chat |
| ReviewProcessor.ReviewStepGrows | src/services/review-processor.service.ts:86-91 | a new review of a credentialed app keeps old rows, adds only a fresh row, and every count is backed by a row |
| ReviewProcessor.AppReviewsEffect | src/services/review-processor.service.ts:85-101 | the review loop keeps old rows, adds only fresh rows, and counts no more than it added |
| ReviewProcessor.PassEffect | src/services/review-processor.service.ts:33-72 | a pass never alters a stored row, adds only fresh rows, and announces at most as many reviews as it added |
| ReviewProcessor.KnownReviewsCostNothing | src/services/review-processor.service.ts:86-87 | reviews already stored cause no work and no change, whatever the AI and Telegram do |
| ReviewProcessor.PassIdleWhenAllKnown | src/services/review-processor.service.ts:33-72 | a pass over reviews that are all stored changes nothing and counts nothing |
| ReviewProcessor.FailedReviewIsAbsent | src/services/review-processor.service.ts:89-97 | a review whose translation or drafting fails does not stop the loop: the app's reviews are processed exactly as if it had not been fetched |
| ReviewProcessor.SkippedAppIsAbsent | src/services/review-processor.service.ts:39-53 | an app without credentials, or whose fetch fails, is as if it were not configured |
| ReviewProcessor.ProcessReview | src/services/review-processor.service.ts:110-174 | the new table and whether it counts are `ReviewStep` of the old table |
| ReviewProcessor.ProcessApp | src/services/review-processor.service.ts:74-108 | a failed fetch is an error and changes nothing; otherwise the table and count are `AppReviews` of the old table |
| ReviewProcessor.ProcessAllApps | src/services/review-processor.service.ts:33-72 | the table and count are `Pass` of the old table |

## Left out

- OpenAI: the chat request and `JSON.parse` of its content are an oracle (`AiService.AiProvider`). The prompt wording is not modelled, only which sections a prompt has and what they carry. Model, reasoning-effort and verbosity settings are left out.
- AiService.AiProvider: `parseReply` always yields a string `replyTranslated`. The source also accepts JSON without that field (src/services/ai.service.ts:57-60, 75) and then stores NULL; that case is not modelled.
- Telegram: `sendMessage` is an oracle; the outcome of `editMessageText` is a boolean. `ctx.reply` and `answerCallbackQuery` are recorded as outputs and assumed to be delivered.
- HTTP, JWT signing, Google authentication and the cached API clients (`getApi`, `getPrivateKey`) are left out. A store listing is the sequence of its responses; a request beyond the last recorded response reads as a failed request.
- The mock's random shuffle is the index of the seed it puts first. `Date.now()` is one clock value per pass (`Adapters.StoreApis.clock`). In the source the clock advances across the 1.2-second throttle (src/services/review-processor.service.ts:100), so two mock entries with the same app id get different review ids. In the model they get the same id in one pass, and the second entry's review is passed over as already stored. Timestamps (`new Date().toISOString()`) are abstract strings.
- The 1.2-second throttle between reviews (`sleep`) and all logging are left out.
- The scheduler, the bot start-up, the `/check` command, `src/index.ts` and the database connection are not part of this model.
- Concurrency is left out: two passes or two button presses never interleave in the model. The source has no run-in-progress guard and no atomic check-then-act.
- Environment validation by zod is left out. The preferred language's display name (`Intl.DisplayNames`) is a given string. The existence of each credentials file is sampled once per `Env`.
- Strings are sequences of Unicode scalar values, while JavaScript counts UTF-16 code units. For characters outside the Basic Multilingual Plane, the model's `slice` lengths differ from the source's.
- Star ratings are natural numbers. A negative rating from a store API is not modelled.
- ReviewProcessor.ProcessReview: the read-back after insert is taken to succeed, since the row was just inserted. Its "Failed to read back" error is not modelled.
- ReplyHandler.Regenerate: the read-back after the update is taken to succeed, since the row was found a moment earlier. The source's silent return when it fails is not modelled.
- Callbacks.HandleSend: the read-back after marking the review replied is taken to succeed, since the row was found a moment earlier. The source's branch that skips the edit when it fails is not modelled.
