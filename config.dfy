/** Configuration the core reads (src/config.ts): the environment settings it
    consults, the reply-context resolution and the loading of apps.json entries. */
module Config {
  import opened Wrappers
  import opened Types
  import opened Strings

  /** The settings the core reads. The preferred language's display name is a
      fixed value, and the existence of each credentials file is sampled once. */
  datatype Env = Env(
    telegramChatId: string,
    preferredLanguage: string,
    preferredLanguageName: string,
    appStoreKeyId: string,
    appStoreIssuerId: string,
    googlePlayKeyFilePresent: bool,
    appStorePrivateKeyFilePresent: bool)

  /** `existsSync` and `readFileSync` on a path as written in the configuration; `readFile`
      is None where `readFileSync` throws (a directory, a file without read permission). */
  datatype FileSystem = FileSystem(fileExists: string -> bool, readFile: string -> Option<string>)

  const MarkdownSuffix: string := ".md"
  const TextSuffix: string := ".txt"
  const RelativePrefix: string := "./"
  const RootPrefix: string := "/"

  /** A reply context is read as a path when it ends in .md or .txt or starts with ./ or /. */
  predicate LooksLikeFile(s: string) {
    EndsWith(s, MarkdownSuffix) || EndsWith(s, TextSuffix) || StartsWith(s, RelativePrefix) || StartsWith(s, RootPrefix)
  }

  /** `resolveReplyContext`: blank gives "", literal text is kept trimmed, a file path
      is replaced by the trimmed file contents and fails when the file is missing or
      cannot be read. */
  function ResolveReplyContext(value: string, fs: FileSystem): (r: Result<string, Error>)
    ensures AllWhitespace(value) ==> r == Ok("")
    ensures !LooksLikeFile(Trim(value)) ==> r == Ok(Trim(value))
    ensures r.Err? <==> !AllWhitespace(value) && LooksLikeFile(Trim(value))
                        && (!fs.fileExists(Trim(value)) || fs.readFile(Trim(value)).None?)
    ensures r.Err? && !fs.fileExists(Trim(value)) ==> r.error == MissingFile
    ensures r.Err? && fs.fileExists(Trim(value)) ==> r.error == UnreadableFile
    ensures !AllWhitespace(value) && LooksLikeFile(Trim(value)) && fs.fileExists(Trim(value))
            && fs.readFile(Trim(value)).Some? ==>
      r == Ok(Trim(fs.readFile(Trim(value)).value))
    ensures r.Ok? && r.value != "" ==> !IsWhitespace(r.value[0]) && !IsWhitespace(r.value[|r.value| - 1])
  {
    TrimEmptyIff(value);
    var trimmed := Trim(value);
    if |trimmed| == 0 then Ok(trimmed)
    else if !LooksLikeFile(trimmed) then Ok(trimmed)
    else if !fs.fileExists(trimmed) then Err(MissingFile)
    else
      var content := fs.readFile(trimmed);
      if content.None? then Err(UnreadableFile) else Ok(Trim(content.value))
  }

  /** `isGooglePlayConfigured`: the service-account key file exists. */
  function IsGooglePlayConfigured(env: Env): (b: bool)
    ensures b <==> env.googlePlayKeyFilePresent
  {
    env.googlePlayKeyFilePresent
  }

  /** `isAppStoreConfigured`: key id and issuer id are set and the key file exists. */
  function IsAppStoreConfigured(env: Env): (b: bool)
    ensures env.appStoreKeyId == "" || env.appStoreIssuerId == "" ==> !b
    ensures !env.appStorePrivateKeyFilePresent ==> !b
    ensures env.appStoreKeyId != "" && env.appStoreIssuerId != "" && env.appStorePrivateKeyFilePresent ==> b
  {
    |env.appStoreKeyId| > 0 && |env.appStoreIssuerId| > 0 && env.appStorePrivateKeyFilePresent
  }

  /** Whether the credentials of a platform are configured (the mock needs none). */
  function CredentialsConfigured(p: Platform, env: Env): (b: bool)
    ensures p == Mock ==> b
    ensures p == GooglePlay ==> (b <==> env.googlePlayKeyFilePresent)
    ensures p == AppStore ==>
      (b <==> env.appStoreKeyId != "" && env.appStoreIssuerId != "" && env.appStorePrivateKeyFilePresent)
  {
    match p
    case GooglePlay => IsGooglePlayConfigured(env)
    case AppStore => IsAppStoreConfigured(env)
    case Mock => true
  }

  /** The callback of `loadApps`'s `map`: the entry with its reply context resolved. */
  function ResolveEntry(app: AppConfig, fs: FileSystem): (r: Result<AppConfig, Error>)
    ensures r.Ok? <==> ResolveReplyContext(app.replyContext, fs).Ok?
    ensures r.Ok? ==> r.value == app.(replyContext := r.value.replyContext)
    ensures r.Ok? ==> Ok(r.value.replyContext) == ResolveReplyContext(app.replyContext, fs)
  {
    var ctx := ResolveReplyContext(app.replyContext, fs);
    if ctx.Err? then Err(ctx.error) else Ok(app.(replyContext := ctx.value))
  }

  /** Every entry's reply context resolves. */
  predicate AllResolve(entries: seq<AppConfig>, fs: FileSystem) {
    forall i :: 0 <= i < |entries| ==> ResolveEntry(entries[i], fs).Ok?
  }

  /** `xs.map(f)` where `f` may throw: the first failure is the result, otherwise every
      element's value, in order. */
  function MapAll<A, B>(xs: seq<A>, f: A -> Result<B, Error>): (r: Result<seq<B>, Error>)
    ensures r.Ok? <==> forall i :: 0 <= i < |xs| ==> f(xs[i]).Ok?
    ensures r.Ok? ==> |r.value| == |xs| && forall i :: 0 <= i < |xs| ==> f(xs[i]) == Ok(r.value[i])
    ensures r.Err? ==> exists k :: 0 <= k < |xs| && f(xs[k]) == Err(r.error)
                                  && forall j :: 0 <= j < k ==> f(xs[j]).Ok?
  {
    if xs == [] then Ok([])
    else
      var first := f(xs[0]);
      if first.Err? then Err(first.error)
      else
        var tail := MapAll(xs[1..], f);
        assert forall i :: 1 <= i < |xs| ==> xs[i] == xs[1..][i - 1];
        if tail.Err? then
          var k :| 0 <= k < |xs[1..]| && f(xs[1..][k]) == Err(tail.error)
                   && forall j :: 0 <= j < k ==> f(xs[1..][j]).Ok?;
          assert f(xs[k + 1]) == Err(tail.error);
          Err(tail.error)
        else
          var r := [first.value] + tail.value;
          assert forall i :: 1 <= i < |xs| ==> r[i] == tail.value[i - 1];
          Ok(r)
  }

  /** The `map` step of `loadApps`: every entry is resolved, in order; the first entry
      whose resolution fails fails the load. */
  function ResolveApps(entries: seq<AppConfig>, fs: FileSystem): (r: Result<seq<AppConfig>, Error>)
    ensures r.Ok? <==> AllResolve(entries, fs)
    ensures r.Ok? ==> |r.value| == |entries|
    ensures r.Ok? ==> forall i :: 0 <= i < |entries| ==> ResolveEntry(entries[i], fs) == Ok(r.value[i])
    ensures r.Err? ==> exists k :: 0 <= k < |entries| && ResolveEntry(entries[k], fs) == Err(r.error)
                                  && forall j :: 0 <= j < k ==> ResolveEntry(entries[j], fs).Ok?
  {
    MapAll(entries, app => ResolveEntry(app, fs))
  }

  /** A loaded entry keeps its name, platform and id, and its reply context is the
      resolved one. */
  lemma ResolveAppsKeepsEntries(entries: seq<AppConfig>, fs: FileSystem)
    requires ResolveApps(entries, fs).Ok?
    ensures var r := ResolveApps(entries, fs).value;
      forall i :: 0 <= i < |entries| ==>
        && r[i] == entries[i].(replyContext := r[i].replyContext)
        && Ok(r[i].replyContext) == ResolveReplyContext(entries[i].replyContext, fs)
  {
    var r := ResolveApps(entries, fs).value;
    forall i | 0 <= i < |entries|
      ensures r[i] == entries[i].(replyContext := r[i].replyContext)
      ensures Ok(r[i].replyContext) == ResolveReplyContext(entries[i].replyContext, fs)
    {
      assert ResolveEntry(entries[i], fs) == Ok(r[i]);
    }
  }

  /** `loadApps` after parsing: an empty list is rejected, otherwise every entry is resolved. */
  function LoadApps(entries: seq<AppConfig>, fs: FileSystem): (r: Result<seq<AppConfig>, Error>)
    ensures entries == [] ==> r == Err(NoApps)
    ensures entries != [] ==> r == ResolveApps(entries, fs)
    ensures r.Ok? ==> |r.value| == |entries| > 0
  {
    if |entries| == 0 then Err(NoApps) else ResolveApps(entries, fs)
  }
}
