/** The comment handler (src/bot/reply-handler.ts): a text message that answers a
    review's Telegram message asks for the reply to be regenerated with the message
    as the operator's comments. */
module ReplyHandler {
  import opened Wrappers
  import opened Strings
  import opened Types
  import opened Schema
  import opened Repository
  import opened MessageFormatter
  import opened Config
  import AiService

  /** An incoming text message: its id, its chat, the message it answers, its text. */
  datatype IncomingText = IncomingText(messageId: int, chatId: Option<string>, replyToMessageId: Option<int>, text: string)

  /** `editMessageText` on a review's message, with its new keyboard. */
  datatype MessageEdit = MessageEdit(chatId: string, messageId: int, text: string, keyboard: Keyboard)

  /** What the handler did outside the store: the replies it posted, in order, and the
      edit it made once the edit succeeded. */
  datatype CommentOutcome = CommentOutcome(replies: seq<string>, edit: Option<MessageEdit>)

  datatype CommentEffect = CommentEffect(rows: map<string, Row>, outcome: CommentOutcome)

  const AlreadyRepliedNotice: string := "This review has already been replied to."
  const Regenerating: string := "\U{1F504} Regenerating reply..."
  const ReplyUpdated: string := "\U{2705} Reply updated!"
  const RegenerateFailed: string := "\U{274C} Failed to regenerate reply. Check logs for details."

  predicate ConfiguredFor(app: AppConfig, appId: string, platform: Platform) {
    app.id == appId && app.platform == platform
  }

  /** Entry `i` is the first one for this app id and platform. */
  predicate FirstFor(apps: seq<AppConfig>, i: int, appId: string, platform: Platform) {
    0 <= i < |apps| && ConfiguredFor(apps[i], appId, platform)
    && forall j :: 0 <= j < i ==> !ConfiguredFor(apps[j], appId, platform)
  }

  /** `apps.find(...)?.replyContext ?? ''`: the context of the first entry for this app id
      and platform, or the empty text when there is none. */
  function AppContextFor(apps: seq<AppConfig>, appId: string, platform: Platform): (ctx: string)
    ensures (forall i :: 0 <= i < |apps| ==> !ConfiguredFor(apps[i], appId, platform)) ==> ctx == ""
    ensures forall i :: FirstFor(apps, i, appId, platform) ==> ctx == apps[i].replyContext
  {
    if apps == [] then ""
    else if ConfiguredFor(apps[0], appId, platform) then apps[0].replyContext
    else
      var ctx := AppContextFor(apps[1..], appId, platform);
      assert forall i :: FirstFor(apps, i, appId, platform) ==> FirstFor(apps[1..], i - 1, appId, platform);
      ctx
  }

  /** The review fields the draft is regenerated from, with the stored defaults. */
  function DraftInputOf(review: Row): AiService.DraftInput {
    AiService.DraftInput(
      review.originalText, review.translatedText, review.starRating,
      review.reviewerLanguage.GetOr("en"), review.platform, review.appName,
      review.authorName.GetOr("Anonymous"))
  }

  /** The handler once the answered message is known to belong to `review`. */
  function RegenerateEffect(rows: map<string, Row>, review: Row, msg: IncomingText, chatId: string, answered: int,
                            env: Env, apps: seq<AppConfig>, ai: AiService.AiProvider, editSucceeds: bool, now: string): CommentEffect
    requires review.id in rows
  {
    if review.status == Replied then CommentEffect(rows, CommentOutcome([AlreadyRepliedNotice], None))
    else
      var result := AiService.GenerateReply(DraftInputOf(review), AppContextFor(apps, review.appId, review.platform),
                                            review.generatedReply, Some(msg.text), env, ai);
      if result.Err? then CommentEffect(rows, CommentOutcome([Regenerating, RegenerateFailed], None))
      else
        var after := SetReply(rows, review.id, result.value.reply, result.value.replyTranslated, now);
        if !editSucceeds then CommentEffect(after, CommentOutcome([Regenerating, RegenerateFailed], None))
        else
          var edit := MessageEdit(chatId, answered, FormatReviewMessage(after[review.id], env.preferredLanguageName), BuildReviewKeyboard(review.id));
          CommentEffect(after, CommentOutcome([Regenerating, ReplyUpdated], Some(edit)))
  }

  /** A replied review is refused: one notice, nothing regenerated or stored. */
  lemma RepliedIsRefused(rows: map<string, Row>, review: Row, msg: IncomingText, chatId: string, answered: int,
                         env: Env, apps: seq<AppConfig>, ai: AiService.AiProvider, editSucceeds: bool, now: string)
    requires review.id in rows && review.status == Replied
    ensures RegenerateEffect(rows, review, msg, chatId, answered, env, apps, ai, editSucceeds, now)
      == CommentEffect(rows, CommentOutcome([AlreadyRepliedNotice], None))
  {
  }

  /** Regeneration only rewrites the stored reply and its translation: the status of every
      row, the set of rows and every other row stay as they were; a failed generation
      changes nothing. */
  lemma RegenerateTouchesOnlyReply(rows: map<string, Row>, review: Row, msg: IncomingText, chatId: string, answered: int,
                                   env: Env, apps: seq<AppConfig>, ai: AiService.AiProvider, editSucceeds: bool, now: string)
    requires review.id in rows
    ensures var e := RegenerateEffect(rows, review, msg, chatId, answered, env, apps, ai, editSucceeds, now);
      e.rows.Keys == rows.Keys
      && (forall k :: k in rows ==> e.rows[k].status == rows[k].status)
      && (forall k :: k in rows && k != review.id ==> e.rows[k] == rows[k])
    ensures var result := AiService.GenerateReply(DraftInputOf(review), AppContextFor(apps, review.appId, review.platform),
                                                  review.generatedReply, Some(msg.text), env, ai);
      var e := RegenerateEffect(rows, review, msg, chatId, answered, env, apps, ai, editSucceeds, now);
      (review.status == Replied || result.Err?) ==> e.rows == rows
  {
  }

  /** On success the stored reply is the new draft, within the store's limit, and the
      message is redrawn with the same review's keyboard, still inviting comments. */
  lemma RegenerateStoresNewDraft(rows: map<string, Row>, review: Row, msg: IncomingText, chatId: string, answered: int,
                                 env: Env, apps: seq<AppConfig>, ai: AiService.AiProvider, editSucceeds: bool, now: string)
    requires review.id in rows && review.status != Replied
    requires AiService.GenerateReply(DraftInputOf(review), AppContextFor(apps, review.appId, review.platform),
                                     review.generatedReply, Some(msg.text), env, ai).Ok?
    ensures var result := AiService.GenerateReply(DraftInputOf(review), AppContextFor(apps, review.appId, review.platform),
                                                  review.generatedReply, Some(msg.text), env, ai).value;
      var e := RegenerateEffect(rows, review, msg, chatId, answered, env, apps, ai, editSucceeds, now);
      && e.rows[review.id].generatedReply == Some(result.reply)
      && e.rows[review.id].replyTranslated == Some(result.replyTranslated)
      && |result.reply| <= AiService.CharLimit(review.platform)
    ensures var e := RegenerateEffect(rows, review, msg, chatId, answered, env, apps, ai, editSucceeds, now);
      && (editSucceeds <==> e.outcome.edit.Some?)
      && (e.outcome.edit.Some? ==>
            e.outcome.edit.value.messageId == answered
            && e.outcome.edit.value.keyboard == BuildReviewKeyboard(review.id)
            && EndsWith(e.outcome.edit.value.text, AdjustHint))
  {
  }

  /** The draft request carries the stored reply and the comment as a revision whenever
      both are non-empty. */
  lemma CommentBecomesRevision(review: Row, msg: IncomingText, env: Env, apps: seq<AppConfig>)
    requires Truthy(review.generatedReply) && msg.text != ""
    ensures var request := AiService.DraftRequest(DraftInputOf(review), AppContextFor(apps, review.appId, review.platform),
                                                  review.generatedReply, Some(msg.text), env);
      request.user.revision == Some(AiService.Revision(review.generatedReply.value, msg.text))
  {
  }

  /** The handler found the review stored under `k` through the answered message and
      behaved as `RegenerateEffect` on it. */
  predicate HandledAs(before: map<string, Row>, k: string, effect: CommentEffect, msg: IncomingText, env: Env,
                      apps: seq<AppConfig>, ai: AiService.AiProvider, editSucceeds: bool, now: string)
    requires k in before && KeyedById(before) && msg.replyToMessageId.Some?
  {
    MatchesMessage(before[k], msg.replyToMessageId.value, env.telegramChatId)
    && effect == RegenerateEffect(before, before[k], msg, env.telegramChatId, msg.replyToMessageId.value,
                                  env, apps, ai, editSucceeds, now)
  }

  /** `bot.on('message:text', ...)`. A message that answers nothing, comes from another chat
      or answers no stored review's message is ignored. */
  method HandleComment(store: ReviewStore, msg: IncomingText, env: Env, apps: seq<AppConfig>,
                       ai: AiService.AiProvider, editSucceeds: bool, now: string)
    returns (outcome: CommentOutcome)
    requires store.Valid()
    modifies store
    ensures store.Valid()
    ensures msg.replyToMessageId.None? || msg.chatId != Some(env.telegramChatId) ==>
      store.rows == old(store.rows) && outcome == CommentOutcome([], None)
    ensures msg.replyToMessageId.Some? && msg.chatId == Some(env.telegramChatId) ==>
      if forall k :: k in old(store.rows) ==> !MatchesMessage(old(store.rows)[k], msg.replyToMessageId.value, env.telegramChatId)
      then store.rows == old(store.rows) && outcome == CommentOutcome([], None)
      else exists k :: k in old(store.rows) && HandledAs(old(store.rows), k, CommentEffect(store.rows, outcome), msg, env, apps, ai, editSucceeds, now)
  {
    if msg.replyToMessageId.None? {
      return CommentOutcome([], None);
    }
    var answered := msg.replyToMessageId.value;
    if msg.chatId != Some(env.telegramChatId) {
      return CommentOutcome([], None);
    }
    var chatId := msg.chatId.value;
    var found := store.FindByTelegramMsg(answered, chatId);
    if found.None? {
      return CommentOutcome([], None);
    }
    outcome := Regenerate(store, found.value, msg, chatId, answered, env, apps, ai, editSucceeds, now);
  }

  /** The handler once the answered message is known to belong to `review`: refuse a
      replied review, otherwise regenerate with the message as comments, store the new
      draft and redraw the review's message. */
  method Regenerate(store: ReviewStore, review: Row, msg: IncomingText, chatId: string, answered: int, env: Env,
                    apps: seq<AppConfig>, ai: AiService.AiProvider, editSucceeds: bool, now: string)
    returns (outcome: CommentOutcome)
    requires store.Valid() && review.id in store.rows
    modifies store
    ensures store.Valid()
    ensures CommentEffect(store.rows, outcome)
      == RegenerateEffect(old(store.rows), review, msg, chatId, answered, env, apps, ai, editSucceeds, now)
  {
    if review.status == Replied {
      return CommentOutcome([AlreadyRepliedNotice], None);
    }
    var replies := [Regenerating];
    var result := AiService.GenerateReply(DraftInputOf(review), AppContextFor(apps, review.appId, review.platform),
                                          review.generatedReply, Some(msg.text), env, ai);
    if result.Err? {
      return CommentOutcome(replies + [RegenerateFailed], None);
    }
    store.UpdateReviewReply(review.id, result.value.reply, result.value.replyTranslated, now);
    // The row was found a moment ago, so reading it back cannot fail.
    var updated := store.FindById(review.id);
    if !editSucceeds {
      return CommentOutcome(replies + [RegenerateFailed], None);
    }
    var edit := MessageEdit(chatId, answered, FormatReviewMessage(updated.value, env.preferredLanguageName), BuildReviewKeyboard(review.id));
    return CommentOutcome(replies + [ReplyUpdated], Some(edit));
  }
}
