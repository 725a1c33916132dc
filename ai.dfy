/** The reply composer (src/services/ai.service.ts): per-platform character limits,
    the structure of the drafting prompts, reply generation with deterministic
    truncation, and translation. The OpenAI chat call and JSON.parse are an oracle. */
module AiService {
  import opened Wrappers
  import opened Types
  import opened Strings
  import opened Config

  /** CHAR_LIMITS: the hard reply length of each store. */
  function CharLimit(p: Platform): (n: nat)
    ensures n == 350 || n == 5970
    ensures n == 5970 <==> p == AppStore
  {
    match p
    case GooglePlay => 350
    case AppStore => 5970
    case Mock => 350
  }

  /** PLATFORM_LABELS: the store names the system prompt uses. */
  function StoreLabel(p: Platform): (name: string)
    ensures p == GooglePlay ==> name == "Google Play Store"
    ensures p == AppStore ==> name == "Apple App Store"
    ensures p == Mock ==> name == "Mock Store"
  {
    match p
    case GooglePlay => "Google Play Store"
    case AppStore => "Apple App Store"
    case Mock => "Mock Store"
  }

  const AutoDetect: string := "auto-detect from review text"

  /** The system prompt, by the parts that vary; the fixed rules are not modelled. */
  datatype SystemPrompt = SystemPrompt(
    storeLabel: string,
    appName: string,
    context: Option<string>,   // the "Context:" line
    charLimit: nat,            // rule 7
    languageName: string)      // the language of replyTranslated

  datatype Translation = Translation(languageName: string, text: string)
  datatype Revision = Revision(previousReply: string, comments: string)

  /** The user prompt, by its sections. */
  datatype UserPrompt = UserPrompt(
    starRating: nat,
    authorName: string,
    language: string,
    originalText: string,
    translation: Option<Translation>,   // the "<language> translation:" section
    revision: Option<Revision>)         // the "--- REVISION REQUEST ---" section

  /** A chat request: the drafting request or the translation request. */
  datatype Prompt =
    | DraftPrompt(system: SystemPrompt, user: UserPrompt)
    | TranslatePrompt(targetLanguageName: string, text: string)

  /** The OpenAI provider: the content of the first choice (Err when the request throws,
      None when it has no content) and JSON.parse of that content into the two fields. */
  datatype AiProvider = AiProvider(
    chat: Prompt -> Result<Option<string>, Error>,
    parseReply: string -> Option<GeneratedReply>)

  /** The review fields `generateReply` reads. */
  datatype DraftInput = DraftInput(
    originalText: string,
    translatedText: Option<string>,
    starRating: nat,
    reviewerLanguage: string,
    platform: Platform,
    appName: string,
    authorName: string)

  /** `buildSystemPrompt`: a Context line only for a non-empty context; the limit is always stated. */
  function BuildSystemPrompt(appName: string, appContext: string, platform: Platform, charLimit: nat, languageName: string): (p: SystemPrompt)
    ensures p.context.Some? <==> appContext != ""
    ensures p.context.Some? ==> p.context.value == appContext
    ensures p.charLimit == charLimit && p.appName == appName && p.storeLabel == StoreLabel(platform)
  {
    SystemPrompt(StoreLabel(platform), appName, if appContext != "" then Some(appContext) else None, charLimit, languageName)
  }

  /** `buildUserPrompt`: the translation section iff there is a non-empty translation,
      the revision section iff both the previous reply and the comments are non-empty. */
  function BuildUserPrompt(review: DraftInput, previousReply: Option<string>, adjustmentComments: Option<string>, languageName: string): (p: UserPrompt)
    ensures p.translation.Some? <==> Truthy(review.translatedText)
    ensures p.translation.Some? ==> p.translation.value.text == review.translatedText.value
    ensures p.revision.Some? <==> Truthy(previousReply) && Truthy(adjustmentComments)
    ensures p.revision.Some? ==> p.revision.value == Revision(previousReply.value, adjustmentComments.value)
    ensures review.reviewerLanguage == "auto" ==> p.language == AutoDetect
    ensures review.reviewerLanguage != "auto" ==> p.language == review.reviewerLanguage
    ensures p.originalText == review.originalText && p.starRating == review.starRating
  {
    UserPrompt(
      review.starRating,
      review.authorName,
      if review.reviewerLanguage == "auto" then AutoDetect else review.reviewerLanguage,
      review.originalText,
      if Truthy(review.translatedText) then Some(Translation(languageName, review.translatedText.value)) else None,
      if Truthy(previousReply) && Truthy(adjustmentComments) then Some(Revision(previousReply.value, adjustmentComments.value)) else None)
  }

  /** The request `generateReply` sends. */
  function DraftRequest(review: DraftInput, appContext: string, previousReply: Option<string>, adjustmentComments: Option<string>, env: Env): Prompt {
    DraftPrompt(
      BuildSystemPrompt(review.appName, appContext, review.platform, CharLimit(review.platform), env.preferredLanguageName),
      BuildUserPrompt(review, previousReply, adjustmentComments, env.preferredLanguageName))
  }

  /** `generateReply`. An absent or empty content is an error, as is content that does
      not parse; otherwise the reply is cut to the platform limit and the translation
      is passed through. */
  function GenerateReply(review: DraftInput, appContext: string, previousReply: Option<string>, adjustmentComments: Option<string>, env: Env, ai: AiProvider): (r: Result<GeneratedReply, Error>)
    ensures var resp := ai.chat(DraftRequest(review, appContext, previousReply, adjustmentComments, env));
      && (resp.Err? ==> r == Err(resp.error))
      && (resp.Ok? && !Truthy(resp.value) ==> r == Err(EmptyResponse))
      && (resp.Ok? && Truthy(resp.value) && ai.parseReply(resp.value.value).None? ==> r == Err(MalformedResponse))
      && (r.Ok? <==> resp.Ok? && Truthy(resp.value) && ai.parseReply(resp.value.value).Some?)
      && (r.Ok? ==>
            var provided := ai.parseReply(resp.value.value).value;
            && r.value.reply <= provided.reply
            && |r.value.reply| <= CharLimit(review.platform)
            && (|provided.reply| <= CharLimit(review.platform) ==> r.value.reply == provided.reply)
            && r.value.replyTranslated == provided.replyTranslated)
  {
    var limit := CharLimit(review.platform);
    var resp := ai.chat(DraftRequest(review, appContext, previousReply, adjustmentComments, env));
    if resp.Err? then Err(resp.error)
    else if !Truthy(resp.value) then Err(EmptyResponse)
    else
      var parsed := ai.parseReply(resp.value.value);
      if parsed.None? then Err(MalformedResponse)
      else Ok(GeneratedReply(Truncate(parsed.value.reply, limit), parsed.value.replyTranslated))
  }

  /** `translateText`: nothing is asked when the review is in the preferred language;
      otherwise the trimmed content, or None when there is no content. */
  function TranslateText(text: string, fromLang: string, env: Env, ai: AiProvider): (r: Result<Option<string>, Error>)
    ensures fromLang == env.preferredLanguage ==> r == Ok(None)
    ensures fromLang != env.preferredLanguage ==>
      var resp := ai.chat(TranslatePrompt(env.preferredLanguageName, text));
      && (resp.Err? ==> r == Err(resp.error))
      && (resp.Ok? && resp.value.None? ==> r == Ok(None))
      && (resp.Ok? && resp.value.Some? ==> r == Ok(Some(Trim(resp.value.value))))
  {
    if fromLang == env.preferredLanguage then Ok(None)
    else
      var resp := ai.chat(TranslatePrompt(env.preferredLanguageName, text));
      if resp.Err? then Err(resp.error)
      else if resp.value.None? then Ok(None)
      else Ok(Some(Trim(resp.value.value)))
  }

  /** A translation from the preferred language does not depend on the provider at all. */
  lemma TranslateSkipsProvider(text: string, fromLang: string, env: Env, ai1: AiProvider, ai2: AiProvider)
    requires fromLang == env.preferredLanguage
    ensures TranslateText(text, fromLang, env, ai1) == TranslateText(text, fromLang, env, ai2) == Ok(None)
  {
  }

  /** A generated reply submitted through a store adapter is not cut again: it already
      fits the limit the adapter enforces (350 for Google Play, 5970 for the App Store). */
  lemma GeneratedReplyFitsStore(review: DraftInput, appContext: string, previousReply: Option<string>, adjustmentComments: Option<string>, env: Env, ai: AiProvider)
    requires GenerateReply(review, appContext, previousReply, adjustmentComments, env, ai).Ok?
    ensures var reply := GenerateReply(review, appContext, previousReply, adjustmentComments, env, ai).value.reply;
      Truncate(reply, CharLimit(review.platform)) == reply
  {
  }
}
