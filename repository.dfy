/** The review repository (src/db/review.repository.ts): the composite key and the
    `reviews` table as a map from primary key to row, with its queries and updates. */
module Repository {
  import opened Wrappers
  import opened Types
  import opened Schema

  /** The composite key "{platform}:{appId}:{reviewId}". The processor's
      `makeReviewId` is this same function. */
  function MakeCompositeKey(platform: string, appId: string, reviewId: string): (k: string)
    ensures |k| == |platform| + |appId| + |reviewId| + 2
    ensures k[..|platform|] == platform && k[|platform|] == ':'
    ensures k[|platform| + 1..|platform| + 1 + |appId|] == appId && k[|platform| + 1 + |appId|] == ':'
    ensures k[|k| - |reviewId|..] == reviewId
  {
    platform + ":" + appId + ":" + reviewId
  }

  /** The position of the first c in s, or |s| when there is none. */
  function IndexOf(s: string, c: char): (i: nat)
    ensures i <= |s|
    ensures forall k :: 0 <= k < i ==> s[k] != c
    ensures i < |s| ==> s[i] == c
  {
    if s == [] then 0 else if s[0] == c then 0 else 1 + IndexOf(s[1..], c)
  }

  /** Splitting a key back at its first two colons. */
  function ParseCompositeKey(key: string): Option<(string, string, string)> {
    var i := IndexOf(key, ':');
    if i == |key| then None
    else
      var rest := key[i + 1..];
      var j := IndexOf(rest, ':');
      if j == |rest| then None else Some((key[..i], rest[..j], rest[j + 1..]))
  }

  lemma IndexOfPrefix(p: string, c: char, rest: string)
    requires c !in p
    ensures IndexOf(p + [c] + rest, c) == |p|
  {
    var s := p + [c] + rest;
    var i := IndexOf(s, c);
    assert s[|p|] == c;
    assert forall k :: 0 <= k < |p| ==> s[k] == p[k];
  }

  /** With colon-free platform and app id, the key splits back into its parts. */
  lemma CompositeKeyRoundTrip(platform: string, appId: string, reviewId: string)
    requires ':' !in platform && ':' !in appId
    ensures ParseCompositeKey(MakeCompositeKey(platform, appId, reviewId)) == Some((platform, appId, reviewId))
  {
    var key := MakeCompositeKey(platform, appId, reviewId);
    assert key == platform + [':'] + (appId + ":" + reviewId);
    IndexOfPrefix(platform, ':', appId + ":" + reviewId);
    var rest := key[|platform| + 1..];
    assert rest == appId + [':'] + reviewId;
    IndexOfPrefix(appId, ':', reviewId);
    assert key[..|platform|] == platform;
    assert rest[..|appId|] == appId;
    assert rest[|appId| + 1..] == reviewId;
  }

  /** Hence equal keys mean the same review of the same app on the same platform. */
  lemma CompositeKeyInjective(p1: string, a1: string, r1: string, p2: string, a2: string, r2: string)
    requires ':' !in p1 && ':' !in a1 && ':' !in p2 && ':' !in a2
    requires MakeCompositeKey(p1, a1, r1) == MakeCompositeKey(p2, a2, r2)
    ensures p1 == p2 && a1 == a2 && r1 == r2
  {
    CompositeKeyRoundTrip(p1, a1, r1);
    CompositeKeyRoundTrip(p2, a2, r2);
  }

  /** Every row is stored under its own primary key. */
  ghost predicate KeyedById(rows: map<string, Row>) {
    forall k :: k in rows ==> rows[k].id == k
  }

  /** A row whose id is the composite key of its own platform, app and review id. */
  predicate WellKeyed(row: Row) {
    row.id == MakeCompositeKey(PlatformName(row.platform), row.appId, row.reviewId)
  }

  predicate MatchesMessage(row: Row, msgId: int, chatId: string) {
    row.telegramMsgId == Some(msgId) && row.telegramChatId == Some(chatId)
  }

  /** `INSERT`: fails on an id already present (PRIMARY KEY), else adds the defaulted row. */
  function Insert(rows: map<string, Row>, data: NewRow, now: string): (r: Result<map<string, Row>, Error>)
    ensures data.id in rows <==> r.Err?
    ensures r.Ok? ==> r.value.Keys == rows.Keys + {data.id} && r.value[data.id] == ApplyDefaults(data, now)
    ensures r.Ok? ==> forall k :: k in rows ==> r.value[k] == rows[k]
  {
    if data.id in rows then Err(DuplicateKey) else Ok(rows[data.id := ApplyDefaults(data, now)])
  }

  /** `UPDATE ... SET generatedReply, replyTranslated, updatedAt WHERE id = ?`. */
  function SetReply(rows: map<string, Row>, id: string, reply: string, translated: string, now: string): (r: map<string, Row>)
    ensures r.Keys == rows.Keys
    ensures forall k :: k in rows && k != id ==> r[k] == rows[k]
    ensures id in rows ==> r[id] == rows[id].(generatedReply := Some(reply), replyTranslated := Some(translated), updatedAt := now)
  {
    map k | k in rows :: if k == id then rows[k].(generatedReply := Some(reply), replyTranslated := Some(translated), updatedAt := now) else rows[k]
  }

  /** `UPDATE ... SET telegramMsgId, telegramChatId, updatedAt WHERE id = ?`. */
  function SetTelegramMsg(rows: map<string, Row>, id: string, msgId: int, chatId: string, now: string): (r: map<string, Row>)
    ensures r.Keys == rows.Keys
    ensures forall k :: k in rows && k != id ==> r[k] == rows[k]
    ensures id in rows ==> r[id] == rows[id].(telegramMsgId := Some(msgId), telegramChatId := Some(chatId), updatedAt := now)
  {
    map k | k in rows :: if k == id then rows[k].(telegramMsgId := Some(msgId), telegramChatId := Some(chatId), updatedAt := now) else rows[k]
  }

  /** `UPDATE ... SET status, updatedAt WHERE id = ?`, whatever the current status. */
  function SetStatus(rows: map<string, Row>, id: string, status: ReviewStatus, now: string): (r: map<string, Row>)
    ensures r.Keys == rows.Keys
    ensures forall k :: k in rows && k != id ==> r[k] == rows[k]
    ensures id in rows ==> r[id] == rows[id].(status := status, updatedAt := now)
  {
    map k | k in rows :: if k == id then rows[k].(status := status, updatedAt := now) else rows[k]
  }

  /** A successful insert is found by its id, and inserting the same id again fails. */
  lemma InsertThenFindAndReject(rows: map<string, Row>, data: NewRow, again: NewRow, now: string, later: string)
    requires data.id !in rows && again.id == data.id
    ensures Insert(rows, data, now).Ok?
    ensures var r := Insert(rows, data, now).value;
      data.id in r && r[data.id].id == data.id && r[data.id].status == (if data.status.None? then Pending else data.status.value)
      && Insert(r, again, later) == Err(DuplicateKey)
  {
  }

  /** The status updates overwrite any status, including a terminal one, and
      never add or remove a row. */
  lemma SetStatusUnconditional(rows: map<string, Row>, id: string, status: ReviewStatus, now: string)
    requires id in rows
    ensures SetStatus(rows, id, status, now)[id].status == status
    ensures SetStatus(rows, id, status, now).Keys == rows.Keys
  {
  }

  /** Every row is stored under its own key, and that key is its composite key. */
  ghost predicate WellKeyedTable(rows: map<string, Row>) {
    KeyedById(rows) && forall k :: k in rows ==> WellKeyed(rows[k])
  }

  /** The fields a row's key is made of are the same in both rows. */
  predicate SameKey(a: Row, b: Row) {
    a.id == b.id && a.platform == b.platform && a.appId == b.appId && a.reviewId == b.reviewId
  }

  lemma SameKeyWellKeyed(a: Row, b: Row)
    requires SameKey(a, b) && WellKeyed(b)
    ensures WellKeyed(a)
  {
  }

  /** Updating the reply keeps the table well keyed. */
  lemma SetReplyKeepsKeys(rows: map<string, Row>, id: string, reply: string, translated: string, now: string)
    requires WellKeyedTable(rows)
    ensures WellKeyedTable(SetReply(rows, id, reply, translated, now))
  {
    var r := SetReply(rows, id, reply, translated, now);
    forall k | k in r
      ensures r[k].id == k && WellKeyed(r[k])
    {
      SameKeyWellKeyed(r[k], rows[k]);
    }
  }

  /** Recording the Telegram message keeps the table well keyed. */
  lemma SetTelegramMsgKeepsKeys(rows: map<string, Row>, id: string, msgId: int, chatId: string, now: string)
    requires WellKeyedTable(rows)
    ensures WellKeyedTable(SetTelegramMsg(rows, id, msgId, chatId, now))
  {
    var r := SetTelegramMsg(rows, id, msgId, chatId, now);
    forall k | k in r
      ensures r[k].id == k && WellKeyed(r[k])
    {
      SameKeyWellKeyed(r[k], rows[k]);
    }
  }

  /** Changing a status keeps the table well keyed. */
  lemma SetStatusKeepsKeys(rows: map<string, Row>, id: string, status: ReviewStatus, now: string)
    requires WellKeyedTable(rows)
    ensures WellKeyedTable(SetStatus(rows, id, status, now))
  {
    var r := SetStatus(rows, id, status, now);
    forall k | k in r
      ensures r[k].id == k && WellKeyed(r[k])
    {
      SameKeyWellKeyed(r[k], rows[k]);
    }
  }

  /** The `reviews` table. */
  class ReviewStore {
    var rows: map<string, Row>

    ghost predicate Valid()
      reads this
    {
      KeyedById(rows)
    }

    constructor ()
      ensures Valid() && rows == map[]
    {
      rows := map[];
    }

    /** `findReviewById` (and `findReviewByCompositeKey`, which looks up the same key). */
    method FindById(id: string) returns (r: Option<Row>)
      requires Valid()
      ensures r.Some? <==> id in rows
      ensures r.Some? ==> r.value == rows[id] && r.value.id == id
    {
      if id in rows {
        r := Some(rows[id]);
      } else {
        r := None;
      }
    }

    /** `findReviewByTelegramMsg`: some row whose message id and chat id both match. */
    method FindByTelegramMsg(msgId: int, chatId: string) returns (r: Option<Row>)
      requires Valid()
      ensures r.Some? ==> r.value.id in rows && rows[r.value.id] == r.value && MatchesMessage(r.value, msgId, chatId)
      ensures r.None? <==> forall k :: k in rows ==> !MatchesMessage(rows[k], msgId, chatId)
    {
      if k :| k in rows && MatchesMessage(rows[k], msgId, chatId) {
        r := Some(rows[k]);
      } else {
        r := None;
      }
    }

    /** `reviewExists`. */
    method ReviewExists(key: string) returns (b: bool)
      requires Valid()
      ensures b <==> key in rows
    {
      var found := FindById(key);
      b := found.Some?;
    }

    /** `insertReview`, which returns the stored row or throws on a duplicate id. */
    method InsertReview(data: NewRow, now: string) returns (r: Result<Row, Error>)
      requires Valid()
      modifies this
      ensures Valid()
      ensures old(data.id in rows) ==> r == Err(DuplicateKey) && rows == old(rows)
      ensures old(data.id !in rows) ==> r == Ok(ApplyDefaults(data, now)) && rows == Insert(old(rows), data, now).value
    {
      var inserted := Insert(rows, data, now);
      if inserted.Err? {
        r := Err(inserted.error);
      } else {
        rows := inserted.value;
        r := Ok(rows[data.id]);
      }
    }

    method UpdateReviewReply(id: string, reply: string, translated: string, now: string)
      requires Valid()
      modifies this
      ensures Valid()
      ensures rows == SetReply(old(rows), id, reply, translated, now)
    {
      rows := SetReply(rows, id, reply, translated, now);
    }

    method UpdateReviewTelegramMsg(id: string, msgId: int, chatId: string, now: string)
      requires Valid()
      modifies this
      ensures Valid()
      ensures rows == SetTelegramMsg(old(rows), id, msgId, chatId, now)
    {
      rows := SetTelegramMsg(rows, id, msgId, chatId, now);
    }

    method MarkReviewReplied(id: string, now: string)
      requires Valid()
      modifies this
      ensures Valid()
      ensures rows == SetStatus(old(rows), id, Replied, now)
    {
      rows := SetStatus(rows, id, Replied, now);
    }

    method MarkReviewSkipped(id: string, now: string)
      requires Valid()
      modifies this
      ensures Valid()
      ensures rows == SetStatus(old(rows), id, Skipped, now)
    {
      rows := SetStatus(rows, id, Skipped, now);
    }
  }
}
