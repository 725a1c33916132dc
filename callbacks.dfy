/** The inline-button handlers (src/bot/callbacks.ts): send the stored reply to the
    store, or skip the review. Telegram is modelled by what it is given and whether
    editing the message succeeds; an answer to the button press is recorded. */
module Callbacks {
  import opened Wrappers
  import opened Types
  import opened Strings
  import opened Schema
  import opened Repository
  import opened MessageFormatter
  import Adapters

  /** What a button press asks for. */
  datatype Action = SendReply(reviewDbId: string) | SkipReview(reviewDbId: string)

  const ReplyPrefix: string := "reply:"
  const SkipPrefix: string := "skip:"

  predicate SingleLine(s: string) {
    forall i :: 0 <= i < |s| ==> !IsLineTerminator(s[i])
  }

  /** `/^prefix(.+)$/`: the prefix, then one or more characters, none a line terminator;
      yields what follows the prefix. */
  function MatchAfter(prefix: string, data: string): (r: Option<string>)
    ensures r.Some? ==> prefix + r.value == data && r.value != "" && SingleLine(r.value)
    ensures StartsWith(data, prefix) && |data| > |prefix| && SingleLine(data[|prefix|..]) ==> r.Some?
  {
    if StartsWith(data, prefix) && |data| > |prefix| && SingleLine(data[|prefix|..])
    then Some(data[|prefix|..])
    else None
  }

  /** Which handler a callback's data reaches, with the review id it captures. */
  function ParseCallbackData(data: string): (r: Option<Action>)
    ensures MatchAfter(ReplyPrefix, data).Some? ==> r == Some(SendReply(MatchAfter(ReplyPrefix, data).value))
    ensures MatchAfter(SkipPrefix, data).Some? ==> r == Some(SkipReview(MatchAfter(SkipPrefix, data).value))
    ensures !StartsWith(data, ReplyPrefix) && !StartsWith(data, SkipPrefix) ==> r.None?
    ensures r.Some? && r.value.SendReply? ==> data == ReplyPrefix + r.value.reviewDbId
    ensures r.Some? && r.value.SkipReview? ==> data == SkipPrefix + r.value.reviewDbId
    ensures r.Some? ==> r.value.reviewDbId != "" && SingleLine(r.value.reviewDbId)
  {
    match MatchAfter(ReplyPrefix, data)
    case Some(id) =>
      assert data[0] == 'r' && !StartsWith(data, SkipPrefix);
      Some(SendReply(id))
    case None =>
      match MatchAfter(SkipPrefix, data)
      case Some(id) => Some(SkipReview(id))
      case None => None
  }

  /** The data a button carries for an action. */
  function ActionData(a: Action): string {
    match a
    case SendReply(id) => ReplyPrefix + id
    case SkipReview(id) => SkipPrefix + id
  }

  /** Every action with a non-empty single-line id is recovered from its data. */
  lemma ActionDataRoundTrip(a: Action)
    requires a.reviewDbId != "" && SingleLine(a.reviewDbId)
    ensures ParseCallbackData(ActionData(a)) == Some(a)
  {
    var data := ActionData(a);
    if a.SendReply? {
      assert data[|ReplyPrefix|..] == a.reviewDbId;
    } else {
      assert data[|SkipPrefix|..] == a.reviewDbId;
      assert data[0] == 's';
      assert !StartsWith(data, ReplyPrefix);
    }
  }

  /** The two buttons of a review's keyboard reach the send and the skip handler with
      the review's own id, for every non-empty single-line id. */
  lemma KeyboardRoundTrip(reviewDbId: string)
    requires reviewDbId != "" && SingleLine(reviewDbId)
    ensures ParseCallbackData(BuildReviewKeyboard(reviewDbId)[0].data) == Some(SendReply(reviewDbId))
    ensures ParseCallbackData(BuildReviewKeyboard(reviewDbId)[1].data) == Some(SkipReview(reviewDbId))
  {
    var k := BuildReviewKeyboard(reviewDbId);
    assert k[0].data == ActionData(SendReply(reviewDbId));
    assert k[1].data == ActionData(SkipReview(reviewDbId));
    ActionDataRoundTrip(SendReply(reviewDbId));
    ActionDataRoundTrip(SkipReview(reviewDbId));
  }

  const NotFoundInDatabase: string := "Review not found in database."
  const AlreadyReplied: string := "Already replied to this review."
  const NoGeneratedReply: string := "No generated reply available."
  const SendFailed: string := "Failed to send reply. Check logs."
  const ReplySent: string := "Reply sent!"
  const NotFound: string := "Review not found."
  const SkipFailed: string := "Error skipping review."
  const ReviewSkipped: string := "Review skipped."
  const SkippedMark: string := "\U{23ED} Skipped."

  /** The answer to a button press; `alert` is `show_alert`. */
  datatype Answer = Answer(text: string, alert: bool)

  /** The message a button belongs to, and whether editing it succeeds. */
  datatype Pressed = Pressed(messageText: Option<string>, editSucceeds: bool)

  /** What a handler did outside the store: the reply text handed to the adapter, the new
      message text once an edit succeeded, and the answer. */
  datatype Outcome = Outcome(adapterText: Option<string>, edited: Option<string>, answer: Answer)

  /** A handler's whole effect: the table afterwards and the outcome. */
  datatype Effect = Effect(rows: map<string, Row>, outcome: Outcome)

  /** The send handler, as a function of the table before it. */
  function SendEffect(rows: map<string, Row>, id: string, apis: Adapters.StoreApis, msg: Pressed, languageName: string, now: string): Effect {
    if id !in rows then Effect(rows, Outcome(None, None, Answer(NotFoundInDatabase, false)))
    else
      var review := rows[id];
      if review.status == Replied then Effect(rows, Outcome(None, None, Answer(AlreadyReplied, false)))
      else if !Truthy(review.generatedReply) then Effect(rows, Outcome(None, None, Answer(NoGeneratedReply, false)))
      else
        var text := review.generatedReply.value;
        if !Adapters.ReplyToReview(review.platform, review.appId, review.reviewId, text, apis)
        then Effect(rows, Outcome(Some(text), None, Answer(SendFailed, true)))
        else
          var after := SetStatus(rows, id, Replied, now);
          if msg.editSucceeds
          then Effect(after, Outcome(Some(text), Some(FormatRepliedMessage(after[id], languageName)), Answer(ReplySent, false)))
          else Effect(after, Outcome(Some(text), None, Answer(SendFailed, true)))
  }

  /** The text a skipped review's message is edited to. */
  function SkippedText(messageText: Option<string>): (r: string)
    ensures EndsWith(r, SkippedMark)
    ensures Truthy(messageText) ==> r == messageText.value + "\n\n" + SkippedMark
    ensures !Truthy(messageText) ==> r == SkippedMark
  {
    if Truthy(messageText) then messageText.value + "\n\n" + SkippedMark else SkippedMark
  }

  /** The skip handler, as a function of the table before it. */
  function SkipEffect(rows: map<string, Row>, id: string, msg: Pressed, now: string): Effect {
    if id !in rows then Effect(rows, Outcome(None, None, Answer(NotFound, false)))
    else
      var after := SetStatus(rows, id, Skipped, now);
      if msg.editSucceeds
      then Effect(after, Outcome(None, Some(SkippedText(msg.messageText)), Answer(ReviewSkipped, false)))
      else Effect(after, Outcome(None, None, Answer(SkipFailed, true)))
  }

  /** The guards: an unknown id, a replied review or a review without a reply gets an
      answer and nothing else; otherwise the stored reply goes to the adapter. */
  lemma SendGuards(rows: map<string, Row>, id: string, apis: Adapters.StoreApis, msg: Pressed, languageName: string, now: string)
    ensures var e := SendEffect(rows, id, apis, msg, languageName, now);
      (id !in rows || rows[id].status == Replied || !Truthy(rows[id].generatedReply))
      <==> e.outcome.adapterText.None?
    ensures var e := SendEffect(rows, id, apis, msg, languageName, now);
      e.outcome.adapterText.None? ==> e.rows == rows && !e.outcome.answer.alert && e.outcome.edited.None?
    ensures var e := SendEffect(rows, id, apis, msg, languageName, now);
      e.outcome.adapterText.Some? ==> e.outcome.adapterText == rows[id].generatedReply
  {
  }

  /** The status becomes replied exactly when the adapter accepted the reply, and
      nothing else in the table changes; a failed submission leaves the table as it was. */
  lemma SendMarksRepliedOnlyAfterSubmission(rows: map<string, Row>, id: string, apis: Adapters.StoreApis, msg: Pressed, languageName: string, now: string)
    ensures var e := SendEffect(rows, id, apis, msg, languageName, now);
      e.rows == rows || e.rows == SetStatus(rows, id, Replied, now)
    ensures var e := SendEffect(rows, id, apis, msg, languageName, now);
      e.rows != rows <==>
        id in rows && rows[id].status != Replied && Truthy(rows[id].generatedReply)
        && Adapters.ReplyToReview(rows[id].platform, rows[id].appId, rows[id].reviewId, rows[id].generatedReply.value, apis)
    ensures var e := SendEffect(rows, id, apis, msg, languageName, now);
      e.outcome.answer.text == ReplySent ==> id in e.rows && e.rows[id].status == Replied && e.outcome.edited.Some?
    ensures var e := SendEffect(rows, id, apis, msg, languageName, now);
      e.rows == rows && e.outcome.adapterText.Some? ==> e.outcome.answer == Answer(SendFailed, true)
  {
    var e := SendEffect(rows, id, apis, msg, languageName, now);
    if id in rows && rows[id].status != Replied && Truthy(rows[id].generatedReply)
      && Adapters.ReplyToReview(rows[id].platform, rows[id].appId, rows[id].reviewId, rows[id].generatedReply.value, apis) {
      assert e.rows[id].status == Replied;
      assert e.rows != rows;
    }
  }

  /** A second press of the send button after a successful send submits nothing. */
  lemma SendTwiceSubmitsOnce(rows: map<string, Row>, id: string, apis: Adapters.StoreApis, msg: Pressed, languageName: string, now: string, later: string)
    requires SendEffect(rows, id, apis, msg, languageName, now).outcome.answer.text == ReplySent
    ensures var again := SendEffect(SendEffect(rows, id, apis, msg, languageName, now).rows, id, apis, msg, languageName, later);
      again.outcome.adapterText.None? && again.outcome.answer == Answer(AlreadyReplied, false)
  {
    SendMarksRepliedOnlyAfterSubmission(rows, id, apis, msg, languageName, now);
  }

  /** When the message edit fails after a successful submission the review stays
      replied, but the answer reports a failure. */
  lemma SendEditFailureKeepsReplied(rows: map<string, Row>, id: string, apis: Adapters.StoreApis, msg: Pressed, languageName: string, now: string)
    requires id in rows && rows[id].status != Replied && Truthy(rows[id].generatedReply)
    requires Adapters.ReplyToReview(rows[id].platform, rows[id].appId, rows[id].reviewId, rows[id].generatedReply.value, apis)
    requires !msg.editSucceeds
    ensures SendEffect(rows, id, apis, msg, languageName, now).rows[id].status == Replied
    ensures SendEffect(rows, id, apis, msg, languageName, now).outcome.answer == Answer(SendFailed, true)
  {
  }

  /** Skip sets `skipped` on any stored review, whatever its status, and touches no other row. */
  lemma SkipIsUnconditional(rows: map<string, Row>, id: string, msg: Pressed, now: string)
    ensures id in rows ==> SkipEffect(rows, id, msg, now).rows == SetStatus(rows, id, Skipped, now)
    ensures id in rows ==> SkipEffect(rows, id, msg, now).rows[id].status == Skipped
    ensures id !in rows ==> SkipEffect(rows, id, msg, now).rows == rows
    ensures SkipEffect(rows, id, msg, now).outcome.adapterText.None?
  {
  }

  /** Skipping does not block sending: a skipped review with a reply is sent like a
      pending one, and skipping a replied review lets it be sent a second time. */
  lemma SendAfterSkip(rows: map<string, Row>, id: string, apis: Adapters.StoreApis, msg: Pressed, skipMsg: Pressed, languageName: string, now: string, later: string)
    requires id in rows && Truthy(rows[id].generatedReply)
    ensures var skipped := SkipEffect(rows, id, skipMsg, now).rows;
      SendEffect(skipped, id, apis, msg, languageName, later).outcome.adapterText == rows[id].generatedReply
  {
    var skipped := SkipEffect(rows, id, skipMsg, now).rows;
    assert skipped[id].status == Skipped && skipped[id].generatedReply == rows[id].generatedReply;
  }

  /** The `reply:` handler. */
  method HandleSend(store: ReviewStore, id: string, apis: Adapters.StoreApis, msg: Pressed, languageName: string, now: string)
    returns (outcome: Outcome)
    requires store.Valid()
    modifies store
    ensures store.Valid()
    ensures Effect(store.rows, outcome) == SendEffect(old(store.rows), id, apis, msg, languageName, now)
  {
    var review := store.FindById(id);
    if review.None? {
      return Outcome(None, None, Answer(NotFoundInDatabase, false));
    }
    var row := review.value;
    if row.status == Replied {
      return Outcome(None, None, Answer(AlreadyReplied, false));
    }
    if !Truthy(row.generatedReply) {
      return Outcome(None, None, Answer(NoGeneratedReply, false));
    }
    var text := row.generatedReply.value;
    var ok := Adapters.ReplyToReview(row.platform, row.appId, row.reviewId, text, apis);
    if !ok {
      return Outcome(Some(text), None, Answer(SendFailed, true));
    }
    store.MarkReviewReplied(id, now);
    var updated := store.FindById(id);
    var edited: Option<string> := None;
    if updated.Some? {
      if !msg.editSucceeds {
        return Outcome(Some(text), None, Answer(SendFailed, true));
      }
      edited := Some(FormatRepliedMessage(updated.value, languageName));
    }
    return Outcome(Some(text), edited, Answer(ReplySent, false));
  }

  /** The `skip:` handler. */
  method HandleSkip(store: ReviewStore, id: string, msg: Pressed, now: string) returns (outcome: Outcome)
    requires store.Valid()
    modifies store
    ensures store.Valid()
    ensures Effect(store.rows, outcome) == SkipEffect(old(store.rows), id, msg, now)
  {
    var review := store.FindById(id);
    if review.None? {
      return Outcome(None, None, Answer(NotFound, false));
    }
    store.MarkReviewSkipped(id, now);
    if !msg.editSucceeds {
      return Outcome(None, None, Answer(SkipFailed, true));
    }
    return Outcome(None, Some(SkippedText(msg.messageText)), Answer(ReviewSkipped, false));
  }

  /** A button press: data matching neither pattern reaches no handler and does nothing. */
  method HandleCallback(store: ReviewStore, data: string, apis: Adapters.StoreApis, msg: Pressed, languageName: string, now: string)
    returns (outcome: Option<Outcome>)
    requires store.Valid()
    modifies store
    ensures store.Valid()
    ensures ParseCallbackData(data).None? ==> outcome.None? && store.rows == old(store.rows)
    ensures ParseCallbackData(data).Some? && ParseCallbackData(data).value.SendReply? ==>
      outcome.Some? && Effect(store.rows, outcome.value) == SendEffect(old(store.rows), ParseCallbackData(data).value.reviewDbId, apis, msg, languageName, now)
    ensures ParseCallbackData(data).Some? && ParseCallbackData(data).value.SkipReview? ==>
      outcome.Some? && Effect(store.rows, outcome.value) == SkipEffect(old(store.rows), ParseCallbackData(data).value.reviewDbId, msg, now)
  {
    var action := ParseCallbackData(data);
    match action {
      case None =>
        outcome := None;
      case Some(SendReply(id)) =>
        var o := HandleSend(store, id, apis, msg, languageName, now);
        outcome := Some(o);
      case Some(SkipReview(id)) =>
        var o := HandleSkip(store, id, msg, now);
        outcome := Some(o);
    }
  }
}
