/**
 * The bot's request handlers over its four process-wide dictionaries.
 *
 * Every handler returns, in order, the effects it has on the outside world:
 * messages to the user, calls into the extraction library, files sent or
 * removed.  What the outside world answers (today's date, what the probe and
 * the fetch returned, whether a cookie file exists, the fresh UUIDs) is
 * passed in as a parameter.
 */
module Bot {
  import opened Wrappers
  import opened Text
  import opened Html
  import T = Translations
  import Q = Quota
  import opened Errors
  import opened Formats
  import opened Callbacks

  /** One effect of a handler on the outside world. */
  datatype Effect =
    | AnswerCallback                                   // acknowledge the pressed button
    | Reply(text: string, keyboard: seq<seq<Button>>)  // an HTML message to the user
    | Probe(url: string, cookies: bool)                // read the video's metadata only
    | Fetch(url: string, options: FetchOptions)        // download and convert the video
    | SendDocument(fileName: string)                   // send the output file to the user
    | RemoveFile(fileName: string)                     // delete the output file
    | DeletePrompt                                     // delete the format prompt message
    | SaveCookies                                      // overwrite the cookie file with the upload
    | Unhandled                                        // an exception escapes the handler

  /** What probing a link returned. */
  datatype ProbeOutcome =
    | Info(title: Option<string>, duration: nat)
    | NoInfo                                           // the library returned no information
    | ProbeFailed(message: string)                     // the library raised an exception

  /** What fetching a link returned, and what was then found on disk. */
  datatype FetchOutcome =
    | Fetched(fileExists: bool, size: nat)
    | DownloadFailed(message: string)                  // the library's DownloadError
    | OtherFailure(message: string)                    // any other exception

  datatype Document = Document(fileName: Option<string>)

  /** 50 MiB: the largest file the bot sends. */
  const MaxFileSize: nat := 52428800  // 50 * 1024 * 1024

  const Untitled: string := "Без названия"
  const PlatformSaved: string := "✅ Платформа сохранена. Можете отправить ссылку на видео."
  const LinkExpired: string := "⚠️ Ссылка устарела."
  const Downloading: string := "⏳ Загрузка..."
  const TooLarge: string := "🚫" + " Файл превышает лимит в 50MB."
  const CookiesSaved: string := "✅ cookies-файл сохранён. Можете отправить видео."
  const AskForCookies: string := "📁 Пожалуйста, отправьте файл cookies от TikTok."

  // ----- the format prompt -----------------------------------------------

  /** `divmod(duration, 60)`. */
  function MinutesSeconds(duration: nat): (r: (nat, nat))
    ensures r.1 < 60 && 60 * r.0 + r.1 == duration
  {
    (duration / 60, duration % 60)
  }

  /** `f"{mins}m {secs}s"`. */
  function DurationText(duration: nat): string
  {
    var (mins, secs) := MinutesSeconds(duration);
    Decimal(mins) + "m " + Decimal(secs) + "s"
  }

  /** A 125-second video is shown as "2m 5s". */
  lemma DurationExample()
    ensures DurationText(125) == "2m 5s"
  {
    assert MinutesSeconds(125) == (2, 5);
    assert Decimal(2) == "2" && Decimal(5) == "5";
  }

  /** `<b>{escape(title)}</b>`: the title line of the prompt. */
  function BoldTitle(title: string): string
  {
    "<b>" + Escape(title) + "</b>"
  }

  /** The prompt under which the three format buttons are shown. */
  function PromptText(title: Option<string>, duration: nat, lang: string): (text: string)
    requires lang in T.Locales
  {
    BoldTitle(title.GetOr(Untitled)) + "\n⏱ " + DurationText(duration) + "\n"
    + T.Translate(T.ChooseFormat, lang)
  }

  /**
   * The title line holds the escaped title between the bold tags; the
   * escaped title opens no tag of its own and reads back as the title.
   */
  lemma TitleIsInert(title: string)
    ensures var e := Escape(title);
      BoldTitle(title) == "<b>" + e + "</b>" && '<' !in e && Unescape(e) == title
  {
    UnescapeEscape(title);
  }

  /** The prompt opens with the title line, "Без названия" standing in for a missing title. */
  lemma PromptOpensWithTitle(title: Option<string>, duration: nat, lang: string)
    requires lang in T.Locales
    ensures StartsWith(PromptText(title, duration, lang), BoldTitle(title.GetOr(Untitled)))
  {
    var head := BoldTitle(title.GetOr(Untitled));
    var tail := "\n⏱ " + DurationText(duration) + "\n" + T.Translate(T.ChooseFormat, lang);
    PrefixOfConcat(head, tail);
  }

  /** A text starts with any of its prefixes. */
  lemma PrefixOfConcat(head: string, tail: string)
    ensures StartsWith(head + tail, head)
  {
    assert (head + tail)[..|head|] == head;
  }

  /** The text of the exception `handle_link` catches, if the probe failed. */
  function ProbeError(probe: ProbeOutcome): (err: Option<string>)
    ensures err.None? <==> probe.Info?
  {
    match probe
    case Info(_, _) => None
    case NoInfo => Some(VideoNotFound)
    case ProbeFailed(message) => Some(message)
  }

  /** A probe that returns nothing is reported as "❌ Ошибка: Видео не найдено.". */
  lemma NoInfoEchoed()
    ensures ProbeError(NoInfo) == Some(VideoNotFound)
    ensures ProbeFailureReply(ProbeError(NoInfo).value) == ErrorPrefix + VideoNotFound
  {
    PlainErrorEchoed(VideoNotFound);
  }

  // ----- delivering the file ---------------------------------------------

  /** The output file exists and is within the size limit: it is sent. */
  predicate Delivered(fetch: FetchOutcome)
  {
    fetch.Fetched? && fetch.fileExists && fetch.size <= MaxFileSize
  }

  /** The error reply `handle_download` sends when no file was produced. */
  function FailureText(fetch: FetchOutcome): string
    requires !(fetch.Fetched? && fetch.fileExists)
  {
    match fetch
    case DownloadFailed(message) => DownloadFailureReply(message)
    case OtherFailure(message) => GenericReply(message)
    case Fetched(_, _) => GenericReply(FileNotFound)
  }

  /** A missing output file is reported as "❌ Ошибка: Файл не найден.", escaping changing nothing. */
  lemma MissingFileReported(fileName: string, size: nat)
    ensures DeliveryEffects(Fetched(false, size), fileName) == [Reply(ErrorPrefix + FileNotFound, [])]
  {
    EscapePlain(FileNotFound);
  }

  /** What `handle_download` does once the library has returned or raised. */
  function DeliveryEffects(fetch: FetchOutcome, fileName: string): (effects: seq<Effect>)
    ensures SendDocument(fileName) in effects <==> Delivered(fetch)
    ensures RemoveFile(fileName) in effects <==> fetch.Fetched? && fetch.fileExists
    ensures |effects| >= 1
    ensures forall i, j | 0 <= i < |effects| && 0 <= j < |effects| ::
      effects[i] == SendDocument(fileName) && effects[j] == RemoveFile(fileName) ==> i < j
  {
    if !(fetch.Fetched? && fetch.fileExists) then [Reply(FailureText(fetch), [])]
    else if fetch.size > MaxFileSize then [Reply(TooLarge, []), RemoveFile(fileName)]
    else [SendDocument(fileName), RemoveFile(fileName), DeletePrompt]
  }

  /**
   * The size gate: an existing file over 50 MiB is refused with the size
   * message and removed; the prompt is deleted only when the file was sent.
   */
  lemma SizeGate(fetch: FetchOutcome, fileName: string)
    ensures Reply(TooLarge, []) in DeliveryEffects(fetch, fileName)
            <==> fetch.Fetched? && fetch.fileExists && fetch.size > MaxFileSize
    ensures DeletePrompt in DeliveryEffects(fetch, fileName) <==> Delivered(fetch)
  {
    assert TooLarge[0] == '🚫' && DownloadAuthPrompt[0] == '🔐';
    assert DownloadErrorPrefix[0] == '❌' && ErrorPrefix[0] == '❌';
  }

  /**
   * Only a `DownloadError` is tested for a login failure; any other
   * exception gets the generic reply, whatever its text says.
   */
  lemma AuthPromptOnlyForDownloadErrors(message: string, fileName: string)
    ensures Reply(DownloadAuthPrompt, []) in DeliveryEffects(DownloadFailed(message), fileName)
            <==> IsAuthError(message)
    ensures Reply(DownloadAuthPrompt, []) !in DeliveryEffects(OtherFailure(message), fileName)
    ensures DeliveryEffects(DownloadFailed(message), fileName) == [Reply(DownloadFailureReply(message), [])]
    ensures DeliveryEffects(OtherFailure(message), fileName) == [Reply(GenericReply(message), [])]
  {
    var generic := GenericReply(message);
    assert generic[0] == '❌' && DownloadAuthPrompt[0] == '🔐';
  }

  // ----- the cookie upload -----------------------------------------------

  /** `handle_document`: a file whose name mentions tiktok.com replaces the cookie file. */
  function HandleDocument(document: Option<Document>): (effects: seq<Effect>)
    ensures SaveCookies in effects <==>
      document.Some? && document.value.fileName.Some? && Contains(document.value.fileName.value, "tiktok.com")
    ensures effects == [Unhandled] <==> document.Some? && document.value.fileName.None?
  {
    match document
    case None => [Reply(AskForCookies, [])]
    case Some(Document(None)) => [Unhandled]
    case Some(Document(Some(name))) =>
      if Contains(name, "tiktok.com") then [SaveCookies, Reply(CookiesSaved, [])]
      else [Reply(AskForCookies, [])]
  }

  // ----- the session store -----------------------------------------------

  /** `if not url`: a key is served when it is stored with a non-empty URL. */
  predicate Pending(urlStorage: map<string, string>, key: string)
  {
    key in urlStorage && urlStorage[key] != ""
  }

  /** Storing a fresh key and then forgetting it restores the store. */
  lemma ForgetFresh(urlStorage: map<string, string>, key: string, url: string)
    requires key !in urlStorage
    ensures urlStorage[key := url] - {key} == urlStorage
  {
    assert (urlStorage[key := url] - {key}).Keys == urlStorage.Keys;
  }

  class BotState {
    var downloadCounter: map<T.UserId, Q.Counter>
    var urlStorage: map<string, string>
    var userLanguage: map<T.UserId, string>
    var userPlatform: map<T.UserId, string>

    /** Every stored locale has translations, and every pending key is a UUID. */
    ghost predicate Valid()
      reads this
    {
      T.KnownLocales(userLanguage) && (forall k | k in urlStorage :: IsUuid(k))
    }

    constructor ()
      ensures Valid()
      ensures downloadCounter == map[] && urlStorage == map[]
      ensures userLanguage == map[] && userPlatform == map[]
    {
      downloadCounter, urlStorage := map[], map[];
      userLanguage, userPlatform := map[], map[];
    }

    /** `get_lang(user_id)`. */
    function Lang(user: T.UserId): (lang: string)
      reads this
      requires Valid()
      ensures lang in T.Locales
    {
      T.GetLang(userLanguage, user)
    }

    /** `cmd_start`: records the user's locale and offers the platform buttons. */
    method Start(user: T.UserId, languageCode: Option<string>) returns (effects: seq<Effect>)
      requires Valid()
      modifies this
      ensures Valid()
      ensures userLanguage == old(userLanguage)[user := T.LocaleFor(languageCode)]
      ensures downloadCounter == old(downloadCounter) && urlStorage == old(urlStorage)
      ensures userPlatform == old(userPlatform)
      ensures effects == [Reply(T.Translate(T.StartMsg, T.LocaleFor(languageCode)), PlatformKeyboard)]
    {
      T.RecordLocale(userLanguage, user, languageCode);
      userLanguage := userLanguage[user := T.LocaleFor(languageCode)];
      var lang := Lang(user);
      effects := [Reply(T.Translate(T.StartMsg, lang), PlatformKeyboard)];
    }

    /** `handle_platform`: records the platform named in a `platform_` payload. */
    method SetPlatform(user: T.UserId, data: string) returns (effects: seq<Effect>)
      requires Valid()
      requires RouteCallback(data) == ToPlatform
      modifies this
      ensures Valid()
      ensures userPlatform == old(userPlatform)[user := PlatformOf(data)]
      ensures downloadCounter == old(downloadCounter) && urlStorage == old(urlStorage)
      ensures userLanguage == old(userLanguage)
      ensures effects == [AnswerCallback, Reply(PlatformSaved, [])]
    {
      effects := [AnswerCallback];
      userPlatform := userPlatform[user := PlatformOf(data)];
      effects := effects + [Reply(PlatformSaved, [])];
    }

    /**
     * `handle_link`: checks and consumes the daily quota, probes the link,
     * and on success stores it under the fresh key `key` and offers the
     * three formats.
     */
    method HandleLink(user: T.UserId, text: Option<string>, today: Q.Day, cookies: bool,
                      probe: ProbeOutcome, key: string) returns (effects: seq<Effect>)
      requires Valid()
      requires IsUuid(key) && key !in urlStorage
      modifies this
      ensures Valid()
      ensures userLanguage == old(userLanguage) && userPlatform == old(userPlatform)
      // a message without text fails before the quota is read
      ensures text.None? ==>
        effects == [Unhandled] && downloadCounter == old(downloadCounter) && urlStorage == old(urlStorage)
      // over the limit: the limit message, and nothing else happens
      ensures text.Some? && Q.Denied(Q.Lookup(old(downloadCounter), user, today), today) ==>
        && effects == [Reply(T.Translate(T.LimitMsg, Lang(user)), [])]
        && downloadCounter == old(downloadCounter) && urlStorage == old(urlStorage)
      // admitted: the request is counted before the probe, whatever the probe returns
      ensures text.Some? && !Q.Denied(Q.Lookup(old(downloadCounter), user, today), today) ==>
        && downloadCounter == old(downloadCounter)[user := Q.Consume(Q.Lookup(old(downloadCounter), user, today), today)]
        && |effects| == 2 && effects[0] == Probe(Strip(text.value), cookies)
        && (ProbeError(probe).Some? ==>
              && effects[1] == Reply(ProbeFailureReply(ProbeError(probe).value), [])
              && urlStorage == old(urlStorage))
        && (probe.Info? ==>
              && effects[1] == Reply(PromptText(probe.title, probe.duration, Lang(user)), FormatKeyboard(key))
              && urlStorage == old(urlStorage)[key := Strip(text.value)])
    {
      if text.None? {
        return [Unhandled];
      }
      var url := Strip(text.value);
      var lang := Lang(user);
      var entry := Q.Lookup(downloadCounter, user, today);
      if Q.Denied(entry, today) {
        return [Reply(T.Translate(T.LimitMsg, lang), [])];
      }
      downloadCounter := downloadCounter[user := Q.Consume(entry, today)];
      effects := [Probe(url, cookies)];
      match ProbeError(probe)
      case Some(message) =>
        effects := effects + [Reply(ProbeFailureReply(message), [])];
      case None =>
        urlStorage := urlStorage[key := url];
        effects := effects + [Reply(PromptText(probe.title, probe.duration, lang), FormatKeyboard(key))];
    }

    /**
     * `handle_download`: resolves the key of a pressed format button, fetches
     * the link with the action's options, and sends the file if it is within
     * the size limit; only then is the key forgotten.
     */
    method HandleDownload(user: T.UserId, data: string, fileId: string, cookies: bool,
                          fetch: FetchOutcome) returns (effects: seq<Effect>)
      requires Valid()
      requires RouteCallback(data) == ToDownload
      modifies this
      ensures Valid()
      ensures downloadCounter == old(downloadCounter)
      ensures userLanguage == old(userLanguage) && userPlatform == old(userPlatform)
      // a payload with more than one '|' cannot be unpacked into two names
      ensures SplitPayload(data).None? ==>
        effects == [AnswerCallback, Unhandled] && urlStorage == old(urlStorage)
      // an unknown key: only the expired-link message
      ensures SplitPayload(data).Some? && !Pending(old(urlStorage), SplitPayload(data).value.1) ==>
        effects == [AnswerCallback, Reply(LinkExpired, [])] && urlStorage == old(urlStorage)
      // a pending key: the stored URL is fetched, and forgotten only once the file is sent
      ensures SplitPayload(data).Some? && Pending(old(urlStorage), SplitPayload(data).value.1) ==>
        var (action, key) := SplitPayload(data).value;
        && effects == [AnswerCallback, Reply(Downloading, []),
                       Fetch(old(urlStorage)[key], OptionsFor(action, fileId, cookies))]
                      + DeliveryEffects(fetch, fileId + Extension(action))
        && urlStorage == if Delivered(fetch) then old(urlStorage) - {key} else old(urlStorage)
    {
      effects := [AnswerCallback];
      var payload := SplitPayload(data);
      if payload.None? {
        return effects + [Unhandled];
      }
      var (action, key) := payload.value;
      if !Pending(urlStorage, key) {
        return effects + [Reply(LinkExpired, [])];
      }
      var url := urlStorage[key];
      effects := effects + [Reply(Downloading, [])];
      var fileName := fileId + Extension(action);
      effects := effects + [Fetch(url, OptionsFor(action, fileId, cookies))];
      effects := effects + DeliveryEffects(fetch, fileName);
      if Delivered(fetch) {
        urlStorage := urlStorage - {key};
      }
    }

    /**
     * One request from link to file: the link is admitted and probed, the
     * user presses the button for `a` under the prompt, and the stripped
     * link is fetched with that action's options.  A delivered request
     * leaves the key store as it was; any other outcome keeps the link.
     */
    method LinkThenButton(user: T.UserId, text: string, today: Q.Day, cookies: bool,
                          title: Option<string>, duration: nat, key: string,
                          a: Action, fileId: string, fetch: FetchOutcome)
      returns (prompt: seq<Effect>, download: seq<Effect>)
      requires Valid()
      requires IsUuid(key) && key !in urlStorage
      requires !Q.Denied(Q.Lookup(downloadCounter, user, today), today)
      requires Strip(text) != ""
      modifies this
      ensures Valid()
      ensures |prompt| == 2 && prompt[1].Reply? && prompt[1].keyboard == FormatKeyboard(key)
      ensures download == [AnswerCallback, Reply(Downloading, []),
                           Fetch(Strip(text), OptionsFor(Name(a), fileId, cookies))]
                          + DeliveryEffects(fetch, fileId + Extension(Name(a)))
      ensures urlStorage == if Delivered(fetch) then old(urlStorage) else old(urlStorage)[key := Strip(text)]
    {
      prompt := HandleLink(user, Some(text), today, cookies, Info(title, duration), key);
      var stored := urlStorage;
      assert stored == old(urlStorage)[key := Strip(text)] && Pending(stored, key);
      var data := Payload(a, key);
      FormatButtonsRouted(a, key);
      UuidHasNoBar(key);
      PayloadRoundTrip(a, key);
      download := HandleDownload(user, data, fileId, cookies, fetch);
      assert urlStorage == if Delivered(fetch) then stored - {key} else stored;
      ForgetFresh(old(urlStorage), key, Strip(text));
    }
  }
}
