/**
 * The widget's message table and the choice of one record for the browser's
 * language: the primary subtag of the language tag (the text before the first
 * `-`) picks "en" or "ru"; any other tag falls back to English.
 */
module Locale {
  import opened Text

  datatype Strings = Strings(
    connecting: string,
    refreshTooltip: string,
    muteTooltip: string,
    unmuteTooltip: string,
    blurTooltip: string,
    unblurTooltip: string,
    civitaiTooltip: string,
    pinggyMessage: string,
    error: string)

  const English := Strings(
    "Connecting...",
    "Click to refresh.",
    "Currently not-muted. Click to mute.",
    "Currently muted. Click to unmute.",
    "Toggle NSFW Blur. Click to blur.",
    "Toggle NSFW Blur. Click to unblur.",
    "Go to CivitAI.",
    "Recreate the Pinggy tunnel!",
    "Error: ")

  const Russian := Strings(
    "Подключение...",
    "Нажмите, чтобы обновить.",
    "Звук включен. Нажмите, чтобы отключить.",
    "Звук отключен. Нажмите, чтобы включить.",
    "Переключить размытие NSFW. Нажмите, чтобы размыть.",
    "Переключить размытие NSFW. Нажмите, чтобы убрать размытие.",
    "Перейти на CivitAI.",
    "Пересоздайте туннель Pinggy!",
    "Ошибка: ")

  /** The translation table: language code to record. */
  const Translations: map<string, Strings> := map["en" := English, "ru" := Russian]

  /** `navigator.language || navigator.userLanguage`: the first one unless it is empty. */
  function UserLanguage(language: string, userLanguage: string): string {
    if language != [] then language else userLanguage
  }

  /** `tag.split('-')[0]`. */
  function PrimarySubtag(tag: string): string {
    BeforeFirst(tag, '-')
  }

  /** `translationsTimer[p] || translationsTimer["en"]` for the primary subtag p of tag. */
  function Select(tag: string): (t: Strings)
    ensures t == English || t == Russian
    ensures PrimarySubtag(tag) in Translations ==> t == Translations[PrimarySubtag(tag)]
    ensures PrimarySubtag(tag) !in Translations ==> t == English
  {
    var p := PrimarySubtag(tag);
    if p in Translations then Translations[p] else English
  }

  /** The Russian record is chosen exactly for the tags whose primary subtag is "ru". */
  lemma SelectRussianIff(tag: string)
    ensures Select(tag) == Russian <==> PrimarySubtag(tag) == "ru"
    ensures Select(tag) == English <==> PrimarySubtag(tag) != "ru"
  {
    assert English.connecting != Russian.connecting;
  }

  /** The region and anything after it are ignored: "ru-RU" selects what "ru" selects. */
  lemma SelectIgnoresRegion(primary: string, region: string)
    requires '-' !in primary
    ensures Select(primary + "-" + region) == Select(primary)
  {
    BeforeFirstOfJoined(primary, '-', region);
    assert primary + "-" + region == primary + ['-'] + region;
    assert BeforeFirst(primary, '-') == primary;
  }

  /**
   * The record the widget uses for the two browser fields: a non-empty
   * `navigator.language` decides alone, an empty one hands over to
   * `navigator.userLanguage`; Russian exactly when the primary subtag of the
   * field used is "ru".
   */
  lemma SelectOfUserLanguage(language: string, userLanguage: string)
    ensures language != [] ==> Select(UserLanguage(language, userLanguage)) == Select(language)
    ensures language == [] ==> Select(UserLanguage(language, userLanguage)) == Select(userLanguage)
    ensures Select(UserLanguage(language, userLanguage)) == Russian
      <==> PrimarySubtag(if language != [] then language else userLanguage) == "ru"
  {
    SelectRussianIff(if language != [] then language else userLanguage);
  }

  /** Concrete tags, as browsers report them. */
  lemma SelectExamples()
    ensures Select("ru-RU") == Russian
    ensures Select("en-US") == English
    ensures Select("de-DE") == English
    ensures Select("") == English
  {
    SelectIgnoresRegion("ru", "RU");
    SelectIgnoresRegion("en", "US");
    SelectIgnoresRegion("de", "DE");
    assert BeforeFirst("ru", '-') == "ru";
    assert BeforeFirst("de", '-') == "de";
    assert BeforeFirst("en", '-') == "en";
  }
}
