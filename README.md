# A verified model of the request handlers of a media-download chat bot

The bot (`bot123.py`) lets a chat user send a YouTube, TikTok or Instagram link. It
checks a per-user daily quota and probes the link for its title and duration. It then
offers three format buttons (480p, 720p, mp3) under a prompt. When a button is
pressed, it fetches the video with options chosen by the format. A file within the
50 MiB limit is sent, and the prompt is deleted.

All per-user state lives in four process-wide dictionaries:
- `download_counter`: one (date, count) entry per user;
- `url_storage`: the pending links, keyed by a fresh UUID;
- `user_language`: the locale chosen on `/start`;
- `user_platform`: the platform chosen with the `platform_` buttons.

The model is the class `Bot.BotState`, whose four map fields are these dictionaries.
Its methods `Start`, `SetPlatform`, `HandleLink` and `HandleDownload` are the four
handlers. Each handler returns the ordered list of its effects on the outside world
(`Bot.Effect`): the replies it sends, the probe and the fetch it asks of the
extraction library, the files it sends or removes, the prompt it deletes, or an
exception that escapes it. The outside world's answers are parameters:
- today's date, as a day number;
- the probe's outcome;
- the fetch's outcome, together with whether the output file exists and its size;
- whether a cookie file exists;
- the fresh UUIDs.

The pure parts are modules of functions and lemmas:
- `Text`: Python's `strip`, `split`, `replace`, `lower`, `in` and integer formatting;
- `Html`: `html.escape` and its inverse;
- `Translations`: the translation table and the locale rules;
- `Quota`: the daily quota;
- `Errors`: the classification of error texts;
- `Formats`: the download options chosen for each action;
- `Callbacks`: the button payloads and the callback prefix filters.

The quota is modelled as the code is written. On a new day the count does not
restart at 1: the code stores (today, old count + 1). A user who used up the quota
on an earlier day therefore gets exactly one request on the next day, and a user
who stopped at 2 gets 3 (`Quota.CarriedOverCount`, `Quota.AdmittedIsAllowance`).
Two failures escape a handler uncaught, and both are modelled as `Unhandled`:
- a message without text (`message.text.strip()` on `None`);
- a button payload with more than one `|` (the two-name unpacking of `split("|")`).

## Model

| member | source | states |
|---|---|---|
| Text.ContainsIffOccurs | bot123.py:96 | Python's `sub in s` holds exactly when `sub` occurs at some position of `s` |
| Text.MissingLeadNotContained | bot123.py:96 | a text lacking the first character of `sub` does not contain `sub` |
| Text.LowerChar | bot123.py:96 | `lower()` of one character maps 'A'..'Z' to 'a'..'z', the Kelvin sign to 'k' and leaves every other character as it is; the result is never an upper-case ASCII letter |
| Text.Lower | bot123.py:96 | the model's `lower()` keeps the length and lowers each character in place |
| Text.LeadingSpaces | bot123.py:68 | the whitespace run at the front of a text, ending at the first non-space |
| Text.TrailingSpaces | bot123.py:68 | the whitespace run at the back of a text, ending at the last non-space |
| Text.Strip | bot123.py:68 | `strip()` yields a slice of the text that neither starts nor ends with whitespace |
| Text.StripPadded | bot123.py:68 | `strip()` of a trimmed text padded with whitespace on both sides gives back that text |
| Text.StripIdempotent | bot123.py:68 | stripping twice is stripping once |
| Text.Split | bot123.py:113 | `split(sep)` gives at least one piece, and no piece contains the separator |
| Text.JoinSplit | bot123.py:113 | joining the pieces of `split(sep)` with `sep` restores the text |
| Text.SplitAfterField | bot123.py:113 | a separator-free field followed by the separator splits off as the first piece |
| Text.SplitWithoutSeparator | bot123.py:113 | a text without the separator splits into itself alone |
| Text.ReplaceAbsent | bot123.py:127 | `replace` returns the text unchanged when the pattern does not occur |
| Text.Decimal | bot123.py:109 | an integer in an f-string is a run of digits with no leading zero |
| Text.DecimalRoundTrip | bot123.py:109 | the digits printed for `n` read back as `n` |
| Html.EscapeChar | bot123.py:92 | `html.escape` turns each markup character into an entity and keeps every other character; no '<', '>' or quote survives |
| Html.Escape | bot123.py:92 | an escaped text contains no '<', '>', '"' or "'" |
| Html.EscapeSnoc | bot123.py:92 | escaping works character by character: appending a character appends its escape |
| Html.EscapeCons | bot123.py:92 | a character in front of a text escapes to its entity in front of the escaped text |
| Html.EscapeFirst | bot123.py:92 | the escape of a non-empty text is the first character's escape followed by the rest's |
| Html.EntityOfEscape | bot123.py:92 | each entity `html.escape` emits is decoded to the markup character it stands for |
| Html.UnescapeEscapeChar | bot123.py:92 | decoding one escaped character and a tail yields that character and the decoded tail |
| Html.UnescapeEscape | bot123.py:92 | escaping loses nothing: the original text is recovered from the escaped one |
| Html.EscapePlain | bot123.py:99 | a text without markup characters is embedded unchanged |
| Translations.Translate | bot123.py:33-46 | `translations[key][lang]` is defined for every message key and both locales |
| Translations.LocaleFor | bot123.py:50 | `/start` records "en" exactly when the client's language code is "en", and otherwise a known locale ("ru" for anything but "en"/"ru") |
| Translations.GetLang | bot123.py:30-31 | `get_lang` returns a locale with translations, "ru" for a user never seen |
| Translations.RecordLocale | bot123.py:50-51 | recording the `/start` locale keeps every stored locale translatable, and `get_lang` reads it back |
| Quota.Lookup | bot123.py:73 | a user without an entry is treated as (today, 0) |
| Quota.Consume | bot123.py:77 | an admitted request stores (today, previous count + 1), even across a change of day |
| Quota.Step | bot123.py:74-77 | a request is admitted exactly when the entry is not today's with count ≥ 5; admitted, the entry becomes (today, count + 1); refused, it is unchanged |
| Quota.AdmittedIsAllowance | bot123.py:72-77 | of `n` requests on one day, exactly the first `Allowance` are admitted: 5 − count for today's entry, and for an older entry one more than its carried-over count leaves (at least 1) |
| Quota.NewUserGetsDailyLimit | bot123.py:72-77 | a user with no entry gets exactly 5 requests in a day |
| Quota.CarriedOverCount | bot123.py:72-77 | a user who reached the limit on an earlier day gets exactly one request on a later day, not five |
| Quota.StaysWithinLimit | bot123.py:72-77 | however many requests a user makes in one day, an entry of that day that starts at most 5 stays dated today and never counts more than 5 |
| Errors.Echoed | bot123.py:99 | an echoed error starts with its fixed prefix, and after the prefix it holds no '<', '>', '"' or "'" |
| Errors.EchoedRecoverable | bot123.py:99 | the error text can be read back exactly from an echoed reply |
| Errors.ProbeFailureReply | bot123.py:96-99 | a failed probe gets the cookie/login prompt exactly when the error text contains "cookies" in any case or "Login" as written; otherwise "❌ Ошибка: " and the escaped text |
| Errors.DownloadFailureReply | bot123.py:187-190 | a `DownloadError` gets the authorisation prompt exactly when it is a login failure; otherwise "❌ Ошибка загрузки: " and the escaped text |
| Errors.LoginMarksAuth | bot123.py:96 | "Login required" is a login failure |
| Errors.CookiesIgnoreCase | bot123.py:96 | "COOKIES" in upper case still marks a login failure |
| Errors.NoMarkerLetters | bot123.py:96 | a text with no 'L', 'c' or 'C' is never taken for a login failure |
| Errors.LowercaseLoginIsGeneric | bot123.py:96 | "login required" in lower case is not a login failure: the "Login" test is case-sensitive |
| Errors.PlainErrorEchoed | bot123.py:91-99 | an error text without markup or marker letters, such as "Видео не найдено.", is echoed verbatim after "❌ Ошибка: " |
| Formats.OptionsFor | bot123.py:125-164 | the output is `file_id` + ".mp3" for audio and ".mp4" otherwise, matching the container the postprocessor produces; only video is merged; the cookie file is passed when it exists |
| Formats.ResolutionOfVideo | bot123.py:127 | `action.replace("video", "")` gives the height of a `video<h>` action |
| Formats.AudioOptions | bot123.py:142-150 | audio: best audio over 1 MB, extracted to mp3 at quality 192, no merging, no codec arguments |
| Formats.VideoOptions | bot123.py:151-164 | `video<h>`: best video at most `h` high plus best audio, merged and converted to mp4, with libx264, aac and `+faststart` |
| Callbacks.UuidHasNoBar | bot123.py:102 | a UUID key never contains the payload separator |
| Callbacks.Name | bot123.py:105-107 | the three action names contain no separator |
| Callbacks.FormatKeyboard | bot123.py:104-108 | 480p and 720p on one row, mp3 on the next, each carrying `action\|key` |
| Callbacks.SplitPayload | bot123.py:113 | when `action, key = data.split("\|")` succeeds, the payload is the two names joined by one '\|' and neither name holds a '\|' |
| Callbacks.SplitPair | bot123.py:113 | any two names without '\|', joined by one '\|', unpack back into exactly those two names |
| Callbacks.PayloadRoundTrip | bot123.py:113 | every `action\|key` payload with a UUID key splits back into that action and that key |
| Callbacks.FormatButtonsRouted | bot123.py:209 | every format button passes the `handle_download` prefix filter |
| Callbacks.RoutedAction | bot123.py:209 | a routed download payload that splits names one of the three actions |
| Callbacks.PlatformOf | bot123.py:63 | `data.split("_")[1]` is the underscore-free text after "platform_", up to the next '_' |
| Callbacks.PieceIsPrefix | bot123.py:63 | the first piece of a split is a prefix of the text, ended by the separator or the text's end |
| Callbacks.PlatformButtonsRouted | bot123.py:208 | the three `/start` buttons pass the `handle_platform` prefix filter |
| Callbacks.PlatformNames | bot123.py:54-64 | the three buttons record "ios", "android" and "pc" |
| Callbacks.PlatformOfSimple | bot123.py:63 | a platform name without '_' is read back from its payload |
| Bot.MinutesSeconds | bot123.py:94 | `divmod(duration, 60)`: seconds below 60, and 60·minutes + seconds is the duration |
| Bot.DurationExample | bot123.py:109 | a 125-second video is shown as "2m 5s" |
| Bot.TitleIsInert | bot123.py:92 | the escaped title between the bold tags opens no tag and reads back as the title |
| Bot.PromptOpensWithTitle | bot123.py:109 | the prompt starts with the bold escaped title, "Без названия" when the probe has none |
| Bot.ProbeError | bot123.py:89-95 | the probe fails exactly when it returns nothing or raises |
| Bot.NoInfoEchoed | bot123.py:90-99 | a probe that returns nothing is answered "❌ Ошибка: Видео не найдено." verbatim |
| Bot.MissingFileReported | bot123.py:170-171 | a missing output file, whatever size is reported for it, is reported as "❌ Ошибка: Файл не найден." and nothing is sent or removed |
| Bot.DeliveryEffects | bot123.py:170-192 | the file is sent exactly when it exists and is within 50 MiB; it is removed exactly when it exists, and only after it was sent |
| Bot.SizeGate | bot123.py:172-185 | the size message is sent exactly for an existing file over 50 MiB; the prompt is deleted exactly when the file was sent |
| Bot.AuthPromptOnlyForDownloadErrors | bot123.py:186-192 | a `DownloadError` yields the authorisation prompt exactly when its text is an authorisation error, and otherwise its escaped text; any other exception yields exactly one reply, the generic one with its escaped text |
| Bot.HandleDocument | bot123.py:194-202 | an upload replaces the cookie file exactly when its file name contains "tiktok.com"; a document without a file name raises |
| Bot.ForgetFresh | bot123.py:184 | storing a fresh key and popping it restores the key store |
| Bot.BotState.constructor | bot123.py:25-28 | the four dictionaries start empty |
| Bot.BotState.Lang | bot123.py:30-31 | every user's locale has translations |
| Bot.BotState.Start | bot123.py:48-58 | `/start` records the locale `LocaleFor` picks, changes nothing else, and replies in that locale with the three platform buttons |
| Bot.BotState.SetPlatform | bot123.py:60-65 | a `platform_` button acknowledges, records the platform name and confirms; nothing else changes |
| Bot.BotState.HandleLink | bot123.py:67-109 | no text raises before the quota is read; over the limit, only the limit message and no change; otherwise the quota is consumed, the stripped link is probed, and either the error reply is sent with no key stored, or the stripped link is stored under the fresh key and the prompt with its three buttons is sent |
| Bot.BotState.HandleDownload | bot123.py:111-192 | a malformed payload raises; an unknown or empty key gets only the expired-link message and changes nothing; a pending key has its stored link fetched with the action's options, and the key is popped exactly when the file was sent |
| Bot.BotState.LinkThenButton | bot123.py:102-184 | a link stored by `handle_link` and the button pressed under its prompt fetch that stripped link with the button's options; a delivered request leaves the key store as it was before the link |

## Left out

- The extraction library (`extract_info`) is not modelled: each call is an effect (`Probe`, `Fetch`), and its result is a parameter. Site scraping, transcoding and the `ignoreerrors` option's effect on what it raises are its business.
- The messaging transport (`answer`, `send_message`, `send_document`, `message.delete`, `callback.answer`, `get_file`, `download_file`) is not modelled: each call is an effect in the returned list. A transport call that fails, for example `send_document` raising, is left out; the model assumes every effect succeeds.
- File-system calls are not modelled. Whether the cookie file exists, whether the output file exists and its size are parameters; removing a file is the effect `RemoveFile`, and writing the cookie file is `SaveCookies`.
- `uuid.uuid4()` and `datetime.date.today()` are parameters. `Bot.BotState.HandleLink` requires the fresh key to be a UUID not already stored, which the source leaves to the randomness of `uuid4`.
- Bot.BotState.HandleLink: a probe that returns a `None` title or a non-integer (float or `None`) duration is not modelled. The duration is a natural number, and a missing title is the only case in which "Без названия" is shown.
- Text.Lower: only ASCII letters and the Kelvin sign are lowered, and the result keeps the length; Python's `lower()` turns U+0130 into two characters ('i' and a combining dot), which the model does not. Python also lowers other scripts, but no other character lowers to a letter of "cookies", so the login test is exact.
- Message routing (the `/start` command filter, and the order `handle_link` then `handle_document`) is not modelled; only the two callback prefix filters are. As registered, `handle_link` has no filter and comes first, so it receives every non-command message, document uploads included. `handle_document` is therefore never reached. `Bot.HandleDocument` models what it would do if it were.
- `user_platform` is recorded by `SetPlatform` and otherwise unused, as in the source, where `handle_download` reads it into a variable it never uses.
- Environment configuration (`load_dotenv`, the token, the ffmpeg path, the cookie-file path) and the constant options `quiet` and `ffmpeg_location` are left out; they never vary between requests.
- Concurrency between handlers (two requests of one user interleaving around the quota check) is left out: each handler runs to completion.
- A successful probe of a link that strips to the empty text stores the empty text, which `handle_download` then treats as an expired link (`if not url`). This is modelled by `Bot.Pending` rather than proved as a separate lemma.
