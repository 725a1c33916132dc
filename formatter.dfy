/** The Telegram message formatter (src/bot/message-formatter.ts). A message is the
    concatenation of the pieces the source appends to `msg`, in order; the sections
    are stated as membership of their header piece. */
module MessageFormatter {
  import opened Wrappers
  import opened Types
  import opened Strings
  import opened Schema

  const Star: char := '\U{2B50}'

  /** `renderStars`: n star characters. */
  function RenderStars(n: nat): (r: string)
    ensures |r| == n && forall i :: 0 <= i < n ==> r[i] == Star
  {
    Repeat(Star, n)
  }

  /** The entities `escapeHtml` writes. */
  const AmpEntity: string := "&amp;"
  const LtEntity: string := "&lt;"
  const GtEntity: string := "&gt;"

  /** `s.replace(/c/g, rep)`. */
  function ReplaceAll(s: string, c: char, rep: string): string {
    if s == [] then [] else (if s[0] == c then rep else [s[0]]) + ReplaceAll(s[1..], c, rep)
  }

  lemma {:induction false} ReplaceAllAppend(a: string, b: string, c: char, rep: string)
    ensures ReplaceAll(a + b, c, rep) == ReplaceAll(a, c, rep) + ReplaceAll(b, c, rep)
  {
    if a != [] {
      assert (a + b)[0] == a[0];
      assert (a + b)[1..] == a[1..] + b;
      ReplaceAllAppend(a[1..], b, c, rep);
    } else {
      assert a + b == b;
    }
  }

  /** The three global replacements of `escapeHtml`, `&` first. */
  function ReplacePasses(s: string): string {
    ReplaceAll(ReplaceAll(ReplaceAll(s, '&', AmpEntity), '<', LtEntity), '>', GtEntity)
  }

  /** The entity of one character. */
  function EscapeChar(c: char): string {
    if c == '&' then AmpEntity else if c == '<' then LtEntity else if c == '>' then GtEntity else [c]
  }

  /** Escaping character by character: the reference for `escapeHtml`. */
  function EscapeEach(s: string): string {
    if s == [] then [] else EscapeChar(s[0]) + EscapeEach(s[1..])
  }

  lemma {:induction false} ReplaceAllAbsent(s: string, c: char, rep: string)
    requires c !in s
    ensures ReplaceAll(s, c, rep) == s
  {
    if s != [] {
      ReplaceAllAbsent(s[1..], c, rep);
    }
  }

  lemma ReplaceAllSingle(c: char, rep: string)
    ensures ReplaceAll([c], c, rep) == rep
  {
    assert [c][1..] == [];
  }

  lemma ReplacePassesAmp()
    ensures ReplacePasses("&") == AmpEntity
  {
    ReplaceAllSingle('&', AmpEntity);
    ReplaceAllAbsent(AmpEntity, '<', LtEntity);
    ReplaceAllAbsent(AmpEntity, '>', GtEntity);
  }

  lemma ReplacePassesLt()
    ensures ReplacePasses("<") == LtEntity
  {
    ReplaceAllAbsent("<", '&', AmpEntity);
    ReplaceAllSingle('<', LtEntity);
    ReplaceAllAbsent(LtEntity, '>', GtEntity);
  }

  lemma ReplacePassesGt()
    ensures ReplacePasses(">") == GtEntity
  {
    ReplaceAllAbsent(">", '&', AmpEntity);
    ReplaceAllAbsent(">", '<', LtEntity);
    ReplaceAllSingle('>', GtEntity);
  }

  lemma ReplacePassesPlain(x: char)
    requires x != '&' && x != '<' && x != '>'
    ensures ReplacePasses([x]) == [x]
  {
    ReplaceAllAbsent([x], '&', AmpEntity);
    ReplaceAllAbsent([x], '<', LtEntity);
    ReplaceAllAbsent([x], '>', GtEntity);
  }

  /** On one character the three passes give that character's entity. */
  lemma ReplacePassesChar(x: char)
    ensures ReplacePasses([x]) == EscapeChar(x)
  {
    if x == '&' {
      ReplacePassesAmp();
    } else if x == '<' {
      ReplacePassesLt();
    } else if x == '>' {
      ReplacePassesGt();
    } else {
      ReplacePassesPlain(x);
    }
  }

  lemma ReplacePassesAppend(a: string, b: string)
    ensures ReplacePasses(a + b) == ReplacePasses(a) + ReplacePasses(b)
  {
    ReplaceAllAppend(a, b, '&', AmpEntity);
    var a1, b1 := ReplaceAll(a, '&', AmpEntity), ReplaceAll(b, '&', AmpEntity);
    ReplaceAllAppend(a1, b1, '<', LtEntity);
    ReplaceAllAppend(ReplaceAll(a1, '<', LtEntity), ReplaceAll(b1, '<', LtEntity), '>', GtEntity);
  }

  /** The three passes escape every character exactly once: an `&` produced by the
      later passes is never escaped again. */
  lemma {:induction false} ReplacePassesIsEscapeEach(s: string)
    ensures ReplacePasses(s) == EscapeEach(s)
  {
    if s != [] {
      assert s == [s[0]] + s[1..];
      ReplacePassesAppend([s[0]], s[1..]);
      ReplacePassesChar(s[0]);
      ReplacePassesIsEscapeEach(s[1..]);
    }
  }

  /** `escapeHtml`: the three passes, which escape every character exactly once. */
  function EscapeHtml(s: string): (r: string)
    ensures r == EscapeEach(s)
  {
    ReplacePassesIsEscapeEach(s);
    ReplacePasses(s)
  }

  lemma {:induction false} EscapeEachNoAngles(s: string)
    ensures '<' !in EscapeEach(s) && '>' !in EscapeEach(s)
  {
    if s != [] {
      EscapeEachNoAngles(s[1..]);
    }
  }

  /** Escaped text contains no `<` and no `>`. */
  lemma EscapeHtmlNoAngles(s: string)
    ensures '<' !in EscapeHtml(s) && '>' !in EscapeHtml(s)
  {
    EscapeEachNoAngles(s);
  }

  lemma {:induction false} EscapeEachIdentity(s: string)
    requires '&' !in s && '<' !in s && '>' !in s
    ensures EscapeEach(s) == s
  {
    if s != [] {
      EscapeEachIdentity(s[1..]);
    }
  }

  /** Text without `&`, `<` and `>` is left as it is. */
  lemma EscapeHtmlIdentity(s: string)
    requires '&' !in s && '<' !in s && '>' !in s
    ensures EscapeHtml(s) == s
  {
    EscapeEachIdentity(s);
  }

  /** What an HTML reader makes of escaped text: the three entities back to characters. */
  function Unescape(s: string): string
    decreases |s|
  {
    if s == [] then []
    else if AmpEntity <= s then "&" + Unescape(s[5..])
    else if LtEntity <= s then "<" + Unescape(s[4..])
    else if GtEntity <= s then ">" + Unescape(s[4..])
    else [s[0]] + Unescape(s[1..])
  }

  /** The reader turns the entity `e` in front of `rest` back into `c`. */
  lemma UnescapeEntity(e: string, c: char, rest: string)
    requires (e, c) in {(AmpEntity, '&'), (LtEntity, '<'), (GtEntity, '>')}
    ensures Unescape(e + rest) == [c] + Unescape(rest)
  {
    var t := e + rest;
    assert t[..|e|] == e && t[|e|..] == rest;
    if e == LtEntity {
      assert t[1] == 'l';
    } else if e == GtEntity {
      assert t[1] == 'g';
    }
  }

  /** A character that begins no entity is read as itself. */
  lemma UnescapePlain(c: char, rest: string)
    requires c != '&'
    ensures Unescape([c] + rest) == [c] + Unescape(rest)
  {
    var t := [c] + rest;
    assert t[0] == c && t[1..] == rest;
  }

  lemma {:induction false} UnescapeEscapeEach(s: string)
    ensures Unescape(EscapeEach(s)) == s
  {
    if s != [] {
      var rest := EscapeEach(s[1..]);
      assert EscapeEach(s) == EscapeChar(s[0]) + rest;
      UnescapeEscapeEach(s[1..]);
      if s[0] == '&' {
        UnescapeEntity(AmpEntity, '&', rest);
      } else if s[0] == '<' {
        UnescapeEntity(LtEntity, '<', rest);
      } else if s[0] == '>' {
        UnescapeEntity(GtEntity, '>', rest);
      } else {
        UnescapePlain(s[0], rest);
      }
      assert s == [s[0]] + s[1..];
    }
  }

  /** Escaping loses nothing: the reader recovers the original text. */
  lemma EscapeHtmlRoundTrip(s: string)
    ensures Unescape(EscapeHtml(s)) == s
  {
    UnescapeEscapeEach(s);
  }

  /** `platformLabel`, on the stored platform text. */
  function PlatformLabel(platform: string): (shown: string)
    ensures platform == "google_play" ==> shown == "Google Play"
    ensures platform == "mock" ==> shown == "Mock Store"
    ensures platform != "google_play" && platform != "mock" ==> shown == "App Store"
  {
    if platform == "google_play" then "Google Play"
    else if platform == "mock" then "Mock Store"
    else "App Store"
  }

  /** The message text is the concatenation of its pieces. */
  function Concat(parts: seq<string>): string {
    if parts == [] then "" else Concat(parts[..|parts| - 1]) + parts[|parts| - 1]
  }

  const Divider: string := "\n\U{2500}\U{2500}\U{2500}\n\n"
  const ReviewLabel: string := "<b>Review:</b>\n"
  const DraftLabel: string := "<b>AI Generated Reply:</b>\n"
  const SentLabel: string := "<b>Sent Reply:</b>\n"
  const AdjustHint: string := "\n<i>" + "Reply to this message with comments to adjust the reply." + "</i>"
  const SentLine: string := "\n\U{2705} <b>Reply sent successfully!</b>"

  function TranslationHeader(languageName: string): string {
    "\n<b>Translation (" + languageName + "):</b>\n"
  }

  function ReplyTranslationHeader(languageName: string): string {
    "\n<b>Reply (" + languageName + "):</b>\n"
  }

  /** Escaped text on a line of its own. */
  function Body(text: string): string {
    EscapeHtml(text) + "\n"
  }

  /** Escaped text in italics on a line of its own. */
  function Italic(text: string): string {
    "<i>" + EscapeHtml(text) + "</i>\n"
  }

  /** The title line: store, stars and the rating out of five. */
  function TitleLine(row: Row): string {
    "<b>" + PlatformLabel(PlatformName(row.platform)) + " | " + RenderStars(row.starRating)
      + " (" + NatToString(row.starRating) + "/5)</b>\n"
  }

  function AppLine(appName: string): string {
    "<b>App:</b> " + EscapeHtml(appName) + "\n"
  }

  function ByLine(authorName: string): string {
    "<b>By:</b> " + EscapeHtml(authorName) + "\n"
  }

  /** The pieces whose presence the lemmas below are about. */
  function Markers(languageName: string): seq<string> {
    [TranslationHeader(languageName), ReplyTranslationHeader(languageName), DraftLabel, AdjustHint]
  }

  /** The lines both messages start with: title, app, author and the review itself. */
  function OpeningParts(row: Row): seq<string> {
    [ TitleLine(row),
      AppLine(row.appName),
      ByLine(row.authorName.GetOr("Anonymous")),
      "\n",
      ReviewLabel,
      Italic(row.originalText) ]
  }

  /** The translation of the review, shown when it is non-empty. */
  function TranslationSection(row: Row, languageName: string): seq<string> {
    if Truthy(row.translatedText)
    then [TranslationHeader(languageName), Body(row.translatedText.value)]
    else []
  }

  /** The translation of the reply, shown when it is non-empty and differs from the reply. */
  function ReplyTranslationSection(row: Row, languageName: string): seq<string> {
    if Truthy(row.replyTranslated) && row.replyTranslated != row.generatedReply
    then [ReplyTranslationHeader(languageName), Body(row.replyTranslated.value)]
    else []
  }

  /** The draft reply, shown when there is one. */
  function DraftSection(row: Row, languageName: string): seq<string> {
    if Truthy(row.generatedReply)
    then [Divider, DraftLabel, Italic(row.generatedReply.value)] + ReplyTranslationSection(row, languageName)
    else []
  }

  /** The reply that was sent. */
  function SentSection(row: Row, languageName: string): seq<string> {
    [Divider, SentLabel, Italic(row.generatedReply.GetOr(""))] + ReplyTranslationSection(row, languageName)
  }

  /** The pieces of `formatReviewMessage`. */
  function ReviewMessageParts(row: Row, languageName: string): seq<string> {
    OpeningParts(row) + TranslationSection(row, languageName) + DraftSection(row, languageName) + [AdjustHint]
  }

  /** The pieces of `formatRepliedMessage`. */
  function RepliedMessageParts(row: Row, languageName: string): seq<string> {
    OpeningParts(row) + TranslationSection(row, languageName) + SentSection(row, languageName) + [SentLine]
  }

  /** `formatReviewMessage`: always ends with the instruction to comment. */
  function FormatReviewMessage(row: Row, languageName: string): (msg: string)
    ensures msg == Concat(ReviewMessageParts(row, languageName))
    ensures EndsWith(msg, AdjustHint)
  {
    var parts := ReviewMessageParts(row, languageName);
    assert parts[..|parts| - 1] + [AdjustHint] == parts;
    Concat(parts)
  }

  /** `formatRepliedMessage`: always ends with the success line. */
  function FormatRepliedMessage(row: Row, languageName: string): (msg: string)
    ensures msg == Concat(RepliedMessageParts(row, languageName))
    ensures EndsWith(msg, SentLine)
  {
    var parts := RepliedMessageParts(row, languageName);
    Concat(parts)
  }

  /** The four markers start differently from each other. */
  lemma MarkersDiffer(languageName: string)
    ensures TranslationHeader(languageName) != ReplyTranslationHeader(languageName)
    ensures TranslationHeader(languageName) != DraftLabel && TranslationHeader(languageName) != AdjustHint
    ensures ReplyTranslationHeader(languageName) != DraftLabel && ReplyTranslationHeader(languageName) != AdjustHint
    ensures DraftLabel != AdjustHint
  {
    var th, rh := TranslationHeader(languageName), ReplyTranslationHeader(languageName);
    assert th[0] == '\n' && th[2] == 'b' && th[4] == 'T';
    assert rh[0] == '\n' && rh[2] == 'b' && rh[4] == 'R';
    assert AdjustHint[0] == '\n' && AdjustHint[2] == 'i';
    assert DraftLabel[0] == '<';
  }

  /** A piece that starts with a tag is no marker unless it is the reply label. */
  lemma TaggedIsNoMarker(p: string, languageName: string)
    requires |p| > 4 && p[0] == '<' && (p[1] != 'b' || p[3] != 'A' || p[4] != 'I')
    ensures p !in Markers(languageName)
  {
    assert TranslationHeader(languageName)[0] == '\n';
    assert ReplyTranslationHeader(languageName)[0] == '\n';
    assert AdjustHint[0] == '\n';
    assert DraftLabel[1] == 'b' && DraftLabel[3] == 'A' && DraftLabel[4] == 'I';
  }

  /** A piece without `<` is no marker. */
  lemma UntaggedIsNoMarker(p: string, languageName: string)
    requires '<' !in p
    ensures p !in Markers(languageName)
  {
    assert TranslationHeader(languageName)[1] == '<';
    assert ReplyTranslationHeader(languageName)[1] == '<';
    assert AdjustHint[1] == '<';
    assert DraftLabel[0] == '<';
  }

  /** Escaped text, alone or in italics, is no marker. */
  lemma TextIsNoMarker(languageName: string)
    ensures forall x :: Body(x) !in Markers(languageName) && Italic(x) !in Markers(languageName)
  {
    forall x ensures Body(x) !in Markers(languageName) && Italic(x) !in Markers(languageName) {
      EscapeHtmlNoAngles(x);
      assert '<' !in Body(x);
      UntaggedIsNoMarker(Body(x), languageName);
      assert Italic(x)[1] == 'i';
      TaggedIsNoMarker(Italic(x), languageName);
    }
  }

  lemma TitleIsNoMarker(row: Row, languageName: string)
    ensures TitleLine(row) !in Markers(languageName)
  {
    var store := PlatformLabel(PlatformName(row.platform));
    assert store[1] == 'o' || store[1] == 'p';
    var rest := " | " + RenderStars(row.starRating) + " (" + NatToString(row.starRating) + "/5)</b>\n";
    assert TitleLine(row) == "<b>" + store + rest;
    assert ("<b>" + store + rest)[4] == store[1];
    TaggedIsNoMarker(TitleLine(row), languageName);
  }

  /** The opening lines contain no marker. */
  lemma OpeningHasNoMarker(row: Row, languageName: string)
    ensures forall p :: p in OpeningParts(row) ==> p !in Markers(languageName)
  {
    TextIsNoMarker(languageName);
    TitleIsNoMarker(row, languageName);
    TaggedIsNoMarker(AppLine(row.appName), languageName);
    TaggedIsNoMarker(ByLine(row.authorName.GetOr("Anonymous")), languageName);
    TaggedIsNoMarker(ReviewLabel, languageName);
    UntaggedIsNoMarker("\n", languageName);
  }

  /** The translation section holds the translation header iff the translation is non-empty. */
  lemma TranslationSectionMarkers(row: Row, languageName: string)
    ensures TranslationHeader(languageName) in TranslationSection(row, languageName) <==> Truthy(row.translatedText)
    ensures ReplyTranslationHeader(languageName) !in TranslationSection(row, languageName)
    ensures DraftLabel !in TranslationSection(row, languageName) && AdjustHint !in TranslationSection(row, languageName)
  {
    TextIsNoMarker(languageName);
    MarkersDiffer(languageName);
  }

  /** The reply-translation section holds its header iff the reply translation is
      non-empty and differs from the reply. */
  lemma ReplyTranslationSectionMarkers(row: Row, languageName: string)
    ensures ReplyTranslationHeader(languageName) in ReplyTranslationSection(row, languageName)
      <==> Truthy(row.replyTranslated) && row.replyTranslated != row.generatedReply
    ensures TranslationHeader(languageName) !in ReplyTranslationSection(row, languageName)
    ensures DraftLabel !in ReplyTranslationSection(row, languageName) && AdjustHint !in ReplyTranslationSection(row, languageName)
  {
    TextIsNoMarker(languageName);
    MarkersDiffer(languageName);
  }

  /** The divider and the sent-reply label are no markers. */
  lemma FramingIsNoMarker(languageName: string)
    ensures Divider !in Markers(languageName) && SentLabel !in Markers(languageName)
    ensures SentLine !in Markers(languageName)
  {
    TaggedIsNoMarker(SentLabel, languageName);
    assert Divider[1] == '\U{2500}';
    UntaggedIsNoMarker(Divider, languageName);
    assert SentLine[0] == '\n' && SentLine[1] == '\U{2705}';
    assert TranslationHeader(languageName)[1] == '<' && ReplyTranslationHeader(languageName)[1] == '<';
    assert AdjustHint[1] == '<' && DraftLabel[0] == '<';
  }

  /** The draft section holds the draft label iff there is a reply, and the reply
      translation header iff it also holds the reply-translation section. */
  lemma DraftSectionMarkers(row: Row, languageName: string)
    ensures DraftLabel in DraftSection(row, languageName) <==> Truthy(row.generatedReply)
    ensures ReplyTranslationHeader(languageName) in DraftSection(row, languageName)
      <==> Truthy(row.generatedReply) && Truthy(row.replyTranslated) && row.replyTranslated != row.generatedReply
    ensures TranslationHeader(languageName) !in DraftSection(row, languageName) && AdjustHint !in DraftSection(row, languageName)
  {
    TextIsNoMarker(languageName);
    MarkersDiffer(languageName);
    FramingIsNoMarker(languageName);
    ReplyTranslationSectionMarkers(row, languageName);
  }

  /** The sent section holds no marker but, possibly, the reply translation header. */
  lemma SentSectionMarkers(row: Row, languageName: string)
    ensures TranslationHeader(languageName) !in SentSection(row, languageName) && DraftLabel !in SentSection(row, languageName)
    ensures AdjustHint !in SentSection(row, languageName)
    ensures ReplyTranslationHeader(languageName) in SentSection(row, languageName)
      <==> Truthy(row.replyTranslated) && row.replyTranslated != row.generatedReply
  {
    TextIsNoMarker(languageName);
    FramingIsNoMarker(languageName);
    ReplyTranslationSectionMarkers(row, languageName);
  }

  /** The translation section appears iff the translation is non-empty; the reply
      translation iff there is a reply and its translation is non-empty and differs from it;
      the draft iff there is a reply. */
  lemma ReviewMessageSections(row: Row, languageName: string)
    ensures TranslationHeader(languageName) in ReviewMessageParts(row, languageName) <==> Truthy(row.translatedText)
    ensures ReplyTranslationHeader(languageName) in ReviewMessageParts(row, languageName)
      <==> Truthy(row.generatedReply) && Truthy(row.replyTranslated) && row.replyTranslated != row.generatedReply
    ensures DraftLabel in ReviewMessageParts(row, languageName) <==> Truthy(row.generatedReply)
  {
    OpeningHasNoMarker(row, languageName);
    TranslationSectionMarkers(row, languageName);
    DraftSectionMarkers(row, languageName);
    MarkersDiffer(languageName);
  }

  /** In the sent-reply message the reply translation appears iff it is non-empty and
      differs from the reply, the translation as in the review message, and neither the
      draft label nor the instruction to comment. */
  lemma RepliedMessageSections(row: Row, languageName: string)
    ensures TranslationHeader(languageName) in RepliedMessageParts(row, languageName) <==> Truthy(row.translatedText)
    ensures ReplyTranslationHeader(languageName) in RepliedMessageParts(row, languageName)
      <==> Truthy(row.replyTranslated) && row.replyTranslated != row.generatedReply
    ensures DraftLabel !in RepliedMessageParts(row, languageName)
    ensures AdjustHint !in RepliedMessageParts(row, languageName)
  {
    OpeningHasNoMarker(row, languageName);
    TranslationSectionMarkers(row, languageName);
    SentSectionMarkers(row, languageName);
    FramingIsNoMarker(languageName);
    MarkersDiffer(languageName);
  }

  /** An inline keyboard button. */
  datatype Button = Button(text: string, data: string)
  type Keyboard = seq<Button>

  const SendButtonLabel: string := "\U{2705} Send Reply"
  const SkipButtonLabel: string := "\U{274C} Skip"

  /** `buildReviewKeyboard`: the send button and the skip button for one review. */
  function BuildReviewKeyboard(reviewDbId: string): (k: Keyboard)
    ensures |k| == 2
    ensures k[0].data == "reply:" + reviewDbId && k[1].data == "skip:" + reviewDbId
  {
    [Button(SendButtonLabel, "reply:" + reviewDbId), Button(SkipButtonLabel, "skip:" + reviewDbId)]
  }
}
