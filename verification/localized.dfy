/** Bilingual content. A content field is either one string for every
    language or an object with an `en` and a `fr` member; the components
    resolve it with `content[lang] || content['en']` whenever `typeof
    content === 'object'`, which arrays pass as well
    (src/components/LessonPlayer/LessonPlayer.js:31-36,
    src/components/CourseOverview/CourseOverview.js:12-17). */
module Localized {
  import opened Common

  /** A localized string: `Plain` is the bare-string form, `ByLang` the
      `{ en, fr }` object form. */
  datatype Text = Plain(s: string) | ByLang(en: string, fr: string)

  /** A localized list of strings (lesson objectives). */
  datatype TextList = PlainList(items: seq<string>) | ListByLang(enItems: seq<string>, frItems: seq<string>)

  /** `content[lang]` on the object form: only the two member names exist. */
  function Member(t: Text, lang: string): Option<string>
    requires t.ByLang?
  {
    if lang == "en" then Some(t.en)
    else if lang == "fr" then Some(t.fr)
    else None
  }

  /** `getLocalizedContent(content, lang)` on a present field. The `||`
      treats an empty string like a missing member, so an empty or unknown
      translation falls back to English. */
  function Resolve(t: Text, lang: string): (r: string)
    ensures t.Plain? ==> r == t.s
    ensures t.ByLang? ==> (r == t.fr <==> (lang == "fr" && t.fr != "") || t.fr == t.en)
    ensures t.ByLang? && !(lang == "fr" && t.fr != "") ==> r == t.en
  {
    match t
    case Plain(s) => s
    case ByLang(en, _) =>
      var m := Member(t, lang);
      if m.Some? && m.value != "" then m.value else en
  }

  /** `getLocalizedContent` on an optional field: `null` and `undefined`
      come back unchanged, as an absent value. */
  function ResolveOptional(t: Option<Text>, lang: string): (r: Option<string>)
    ensures r.Some? <==> t.Some?
    ensures t.Some? ==> r.value == Resolve(t.value, lang)
  {
    match t
    case None => None
    case Some(x) => Some(Resolve(x, lang))
  }

  /** `getLocalizedContent(objectives) || []`. A bare array passes the
      `typeof content === 'object'` test too, and an array has no `en` or
      `fr` member, so a plain list resolves to `undefined` and the overview
      shows no objectives at all. On the object form, arrays are truthy even
      when empty, so unlike strings an empty French list does NOT fall back. */
  function ResolveList(t: TextList, lang: string): (r: seq<string>)
    ensures t.PlainList? ==> r == []
    ensures t.ListByLang? && lang == "fr" ==> r == t.frItems
    ensures t.ListByLang? && lang != "fr" ==> r == t.enItems
  {
    match t
    case PlainList(_) => []
    case ListByLang(en, fr) => if lang == "fr" then fr else en
  }

  /** The list a language picks on the object form. */
  function Chosen(t: TextList, lang: string): seq<string>
    requires t.ListByLang?
  {
    if lang == "fr" then t.frItems else t.enItems
  }

  /** Objectives are shown exactly when the list is the bilingual object
      form and the list the language picks is non-empty; a plain list shows
      nothing in any language, however many items it has. */
  lemma ObjectivesShownIffBilingual(t: TextList, lang: string)
    ensures ResolveList(t, lang) != [] <==> t.ListByLang? && Chosen(t, lang) != []
    ensures t.PlainList? ==> ResolveList(t, lang) == [] && ResolveList(t, "en") == ResolveList(t, "fr")
  {
  }

  /** JavaScript truthiness of a resolved optional string. */
  predicate Truthy(r: Option<string>) {
    r.Some? && r.value != ""
  }

  /** Resolving in English always yields the English text, whatever the
      French text is. */
  lemma EnglishNeverFallsBack(t: Text)
    ensures Resolve(t, "en") == (if t.Plain? then t.s else t.en)
  {
  }

  /** Resolving is total over languages: an unknown language code behaves
      exactly like English. */
  lemma UnknownLanguageIsEnglish(t: Text, lang: string)
    requires lang != "en" && lang != "fr"
    ensures Resolve(t, lang) == Resolve(t, "en")
  {
  }
}
