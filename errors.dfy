/**
 * How the handlers turn an error text from the extraction library into a
 * reply: a substring test picks out login/cookie failures, and every other
 * error is echoed, HTML-escaped, after a fixed prefix.
 */
module Errors {
  import opened Text
  import opened Html

  /** `"cookies" in str(e).lower() or "Login" in str(e)`: the second test is case-sensitive. */
  predicate IsAuthError(msg: string)
  {
    Contains(Lower(msg), "cookies") || Contains(msg, "Login")
  }

  const LinkAuthPrompt: string := "🔒" + " Это видео требует входа в TikTok. Пожалуйста, отправьте cookies файл или выберите другое видео."
  const DownloadAuthPrompt: string := "🔐" + " Это видео требует авторизацию. Обновите cookies-файл и попробуйте снова."
  const ErrorPrefix: string := "❌ Ошибка: "
  const DownloadErrorPrefix: string := "❌ Ошибка загрузки: "

  /** The text of the exception raised when the probe returns nothing. */
  const VideoNotFound: string := "Видео не найдено."
  /** The text of the exception raised when the fetched file is missing. */
  const FileNotFound: string := "Файл не найден."

  /** `f"{prefix}{escape(str(e))}"`: an error text echoed, escaped, after a fixed prefix. */
  function Echoed(prefix: string, msg: string): (text: string)
    ensures StartsWith(text, prefix)
    ensures forall k | |prefix| <= k < |text| ::
      text[k] != '<' && text[k] != '>' && text[k] != '"' && text[k] != '\''
  {
    prefix + Escape(msg)
  }

  /** The echoed error text can be read back exactly from the reply. */
  lemma EchoedRecoverable(prefix: string, msg: string)
    ensures Unescape(Echoed(prefix, msg)[|prefix|..]) == msg
  {
    assert Echoed(prefix, msg)[|prefix|..] == Escape(msg);
    UnescapeEscape(msg);
  }

  /** `f"❌ Ошибка: {escape(str(e))}"`. */
  function GenericReply(msg: string): string
  {
    Echoed(ErrorPrefix, msg)
  }

  /** The reply `handle_link` sends when probing the link failed. */
  function ProbeFailureReply(msg: string): (text: string)
    ensures text == LinkAuthPrompt <==> IsAuthError(msg)
    ensures !IsAuthError(msg) ==> text == GenericReply(msg)
  {
    if IsAuthError(msg) then LinkAuthPrompt
    else
      var text := GenericReply(msg);
      assert ErrorPrefix[0] == '❌' && LinkAuthPrompt[0] == '🔒';
      assert text[0] == '❌';
      text
  }

  /** The reply `handle_download` sends for a `DownloadError` from the library. */
  function DownloadFailureReply(msg: string): (text: string)
    ensures text == DownloadAuthPrompt <==> IsAuthError(msg)
    ensures !IsAuthError(msg) ==> text == Echoed(DownloadErrorPrefix, msg)
  {
    if IsAuthError(msg) then DownloadAuthPrompt
    else
      var text := Echoed(DownloadErrorPrefix, msg);
      assert DownloadErrorPrefix[0] == '❌' && DownloadAuthPrompt[0] == '🔐';
      assert text[0] == '❌';
      text
  }

  /** "Login" with a capital L marks an error as a login failure. */
  lemma LoginMarksAuth()
    ensures IsAuthError("Login required")
  {
    assert StartsWith("Login required", "Login");
  }

  /** "cookies" is found whatever its case. */
  lemma CookiesIgnoreCase()
    ensures IsAuthError("Use --COOKIES to pass them")
  {
    var low := Lower("Use --COOKIES to pass them");
    assert low[6..][..7] == "cookies";
    ContainsIffOccurs(low, "cookies");
    assert OccursAt(low, "cookies", 6);
  }

  /** A text with no capital L and no letter that lower-cases to 'c' is not a login failure. */
  lemma {:induction false} NoMarkerLetters(s: string)
    requires 'L' !in s && 'c' !in s && 'C' !in s
    ensures !IsAuthError(s)
  {
    MissingLeadNotContained(s, "Login");
    assert 'c' !in Lower(s) by {
      forall k | 0 <= k < |s| ensures Lower(s)[k] != 'c' {
        assert s[k] in s;
      }
    }
    MissingLeadNotContained(Lower(s), "cookies");
  }

  /** "login" in lower case does not mark an error as a login failure. */
  lemma LowercaseLoginIsGeneric()
    ensures !IsAuthError("login required")
  {
    NoMarkerLetters("login required");
  }

  /**
   * An error text with no markup and no marker letters, such as the
   * "video not found" text `handle_link` raises itself, is echoed verbatim
   * after the generic prefix.
   */
  lemma PlainErrorEchoed(msg: string)
    requires forall k :: 0 <= k < |msg| ==> !IsMarkup(msg[k])
    requires 'L' !in msg && 'c' !in msg && 'C' !in msg
    ensures ProbeFailureReply(msg) == ErrorPrefix + msg
  {
    NoMarkerLetters(msg);
    EscapePlain(msg);
  }
}
