// Per-request locale resolution for the translation library: an unsupported
// or missing locale falls back to English, and each locale has a time zone.
module I18nRequest {
  import opened Common

  /** The locales that have message catalogues. */
  const Locales: seq<string> := ["en", "zh-CN", "zh-HK", "ko-KR", "ru"]

  const FallbackLocale: string := "en"

  /**
   * The locale a request is served in: the requested one when it is present,
   * non-empty and supported, English otherwise.
   */
  function ResolveLocale(requested: Option<string>): (r: string)
    ensures r in Locales
    ensures requested.Some? && requested.value in Locales ==> r == requested.value
    ensures requested.None? || requested.value !in Locales ==> r == FallbackLocale
  {
    if requested.None? || requested.value == [] || requested.value !in Locales then FallbackLocale
    else requested.value
  }

  /** Resolving an already resolved locale changes nothing. */
  lemma ResolveIdempotent(requested: Option<string>)
    ensures ResolveLocale(Some(ResolveLocale(requested))) == ResolveLocale(requested)
  {
  }

  /** The time zone the request's dates are formatted in. */
  function TimeZone(locale: string): (tz: string)
    ensures locale == "zh-CN" ==> tz == "Asia/Shanghai"
    ensures locale == "zh-HK" ==> tz == "Asia/Hong_Kong"
    ensures locale == "ko-KR" ==> tz == "Asia/Seoul"
    ensures locale == "ru" ==> tz == "Europe/Moscow"
    ensures locale !in {"zh-CN", "zh-HK", "ko-KR", "ru"} ==> tz == "America/New_York"
  {
    if locale == "zh-CN" then "Asia/Shanghai"
    else if locale == "zh-HK" then "Asia/Hong_Kong"
    else if locale == "ko-KR" then "Asia/Seoul"
    else if locale == "ru" then "Europe/Moscow"
    else "America/New_York"
  }

  /** Distinct supported locales other than English get distinct time zones. */
  lemma TimeZonesDistinct(a: string, b: string)
    requires a in Locales && b in Locales && a != b && a != FallbackLocale && b != FallbackLocale
    ensures TimeZone(a) != TimeZone(b)
  {
  }
}
