/** The `reviews` table row (src/db/schema.ts), with its nullable columns and defaults.
    A Row is also the StoredReview record of src/types/index.ts. */
module Schema {
  import opened Wrappers
  import opened Types

  /** One stored review. `id` is the primary key and holds the composite key;
      None stands for SQL NULL. */
  datatype Row = Row(
    id: string,
    platform: Platform,
    appId: string,
    appName: string,
    reviewId: string,
    authorName: Option<string>,
    starRating: nat,
    originalText: string,
    translatedText: Option<string>,
    reviewerLanguage: Option<string>,
    territory: Option<string>,
    generatedReply: Option<string>,
    replyTranslated: Option<string>,
    telegramMsgId: Option<int>,
    telegramChatId: Option<string>,
    status: ReviewStatus,
    createdAt: string,
    updatedAt: string)

  /** The values an insert supplies. A column with a default is optional here:
      None means the insert leaves it out and the default applies. */
  datatype NewRow = NewRow(
    id: string,
    platform: Platform,
    appId: string,
    appName: string,
    reviewId: string,
    authorName: Option<string>,
    starRating: nat,
    originalText: string,
    translatedText: Option<string>,
    reviewerLanguage: Option<string>,
    territory: Option<string>,
    generatedReply: Option<string>,
    replyTranslated: Option<string>,
    telegramMsgId: Option<int>,
    telegramChatId: Option<string>,
    status: Option<ReviewStatus>)

  const DefaultAuthor: string := "Anonymous"
  const DefaultLanguage: string := "en"

  /** The row SQLite stores for an insert made at time `now`. */
  function ApplyDefaults(data: NewRow, now: string): (row: Row)
    ensures row.id == data.id && row.platform == data.platform && row.appId == data.appId
    ensures row.reviewId == data.reviewId && row.originalText == data.originalText
    ensures row.appName == data.appName && row.starRating == data.starRating
    ensures row.translatedText == data.translatedText && row.territory == data.territory
    ensures data.authorName.Some? ==> row.authorName == data.authorName
    ensures data.reviewerLanguage.Some? ==> row.reviewerLanguage == data.reviewerLanguage
    ensures data.status.None? ==> row.status == Pending
    ensures data.status.Some? ==> row.status == data.status.value
    ensures data.authorName.None? ==> row.authorName == Some(DefaultAuthor)
    ensures data.reviewerLanguage.None? ==> row.reviewerLanguage == Some(DefaultLanguage)
    ensures row.authorName.Some? && row.reviewerLanguage.Some?
    ensures row.generatedReply == data.generatedReply && row.replyTranslated == data.replyTranslated
    ensures row.telegramMsgId == data.telegramMsgId && row.telegramChatId == data.telegramChatId
    ensures row.createdAt == now && row.updatedAt == now
  {
    Row(
      data.id, data.platform, data.appId, data.appName, data.reviewId,
      Some(data.authorName.GetOr(DefaultAuthor)),
      data.starRating, data.originalText, data.translatedText,
      Some(data.reviewerLanguage.GetOr(DefaultLanguage)),
      data.territory, data.generatedReply, data.replyTranslated,
      data.telegramMsgId, data.telegramChatId,
      data.status.GetOr(Pending),
      now, now)
  }
}
