/** The settings store (src/contexts/SettingsContext.js): five settings,
    a shallow-merge update, persistence merged over the defaults on load,
    and an idempotent "complete lesson" that appends to the completed list. */
module Settings {
  import opened Common

  /** `completedLessons` may be missing or `null` after a load; readers see
      `[]` in that case. */
  datatype Settings = Settings(
    displayLanguage: string,
    narrationLanguage: string,
    narratorVoice: string,
    isVoiceOverEnabled: bool,
    completedLessons: Option<seq<string>>)

  const Defaults: Settings := Settings("en", "en", "default", false, Some([]))

  /** A partial settings object: each present field overrides. A present
      `completedLessons` may itself be `null`. */
  datatype Patch = Patch(
    displayLanguage: Option<string>,
    narrationLanguage: Option<string>,
    narratorVoice: Option<string>,
    isVoiceOverEnabled: Option<bool>,
    completedLessons: Option<Option<seq<string>>>)

  const EmptyPatch: Patch := Patch(None, None, None, None, None)

  /** `{ ...prev, ...patch }`. */
  function Merge(prev: Settings, patch: Patch): (r: Settings)
    ensures patch.displayLanguage.Some? ==> r.displayLanguage == patch.displayLanguage.value
    ensures patch.displayLanguage.None? ==> r.displayLanguage == prev.displayLanguage
    ensures patch.narrationLanguage.Some? ==> r.narrationLanguage == patch.narrationLanguage.value
    ensures patch.narrationLanguage.None? ==> r.narrationLanguage == prev.narrationLanguage
    ensures patch.narratorVoice.Some? ==> r.narratorVoice == patch.narratorVoice.value
    ensures patch.narratorVoice.None? ==> r.narratorVoice == prev.narratorVoice
    ensures patch.isVoiceOverEnabled.Some? ==> r.isVoiceOverEnabled == patch.isVoiceOverEnabled.value
    ensures patch.isVoiceOverEnabled.None? ==> r.isVoiceOverEnabled == prev.isVoiceOverEnabled
    ensures patch.completedLessons.Some? ==> r.completedLessons == patch.completedLessons.value
    ensures patch.completedLessons.None? ==> r.completedLessons == prev.completedLessons
  {
    Settings(
      patch.displayLanguage.GetOr(prev.displayLanguage),
      patch.narrationLanguage.GetOr(prev.narrationLanguage),
      patch.narratorVoice.GetOr(prev.narratorVoice),
      patch.isVoiceOverEnabled.GetOr(prev.isVoiceOverEnabled),
      patch.completedLessons.GetOr(prev.completedLessons))
  }

  /** The later of two patches wins field by field. */
  function Then(first: Patch, second: Patch): Patch {
    Patch(
      if second.displayLanguage.Some? then second.displayLanguage else first.displayLanguage,
      if second.narrationLanguage.Some? then second.narrationLanguage else first.narrationLanguage,
      if second.narratorVoice.Some? then second.narratorVoice else first.narratorVoice,
      if second.isVoiceOverEnabled.Some? then second.isVoiceOverEnabled else first.isVoiceOverEnabled,
      if second.completedLessons.Some? then second.completedLessons else first.completedLessons)
  }

  /** An empty update changes nothing; an update is idempotent; two updates
      equal one update with the later patch winning. */
  lemma MergeLaws(s: Settings, p: Patch, q: Patch)
    ensures Merge(s, EmptyPatch) == s
    ensures Merge(Merge(s, p), p) == Merge(s, p)
    ensures Merge(Merge(s, p), q) == Merge(s, Then(p, q))
  {
  }

  /** What local storage holds under the settings key: nothing (or an empty
      string), text that is not JSON, or a parsed object. */
  datatype Stored = Missing | Unparseable | Parsed(saved: Patch)

  /** The mount effect: a parsed object is merged over the defaults; missing
      or unparseable storage leaves the defaults. */
  function Load(stored: Stored): (r: Settings)
    ensures stored.Parsed? ==> r == Merge(Defaults, stored.saved)
    ensures !stored.Parsed? ==> r == Defaults
    ensures stored.Parsed? && stored.saved.completedLessons.None? ==> r.completedLessons == Some([])
  {
    match stored
    case Parsed(saved) => Merge(Defaults, saved)
    case _ => Defaults
  }

  /** The object the save effect writes: every field present. */
  function Saved(s: Settings): Patch {
    Patch(Some(s.displayLanguage), Some(s.narrationLanguage), Some(s.narratorVoice),
          Some(s.isVoiceOverEnabled), Some(s.completedLessons))
  }

  /** Saving and loading again restores the settings exactly. */
  lemma SaveLoadRoundTrip(s: Settings)
    ensures Load(Parsed(Saved(s))) == s
  {
  }

  /** The list readers see: `completedLessons || []`. */
  function ExposedCompleted(s: Settings): (r: seq<string>)
    ensures s.completedLessons.Some? ==> r == s.completedLessons.value
    ensures s.completedLessons.None? ==> r == []
  {
    s.completedLessons.GetOr([])
  }

  /** `completeLesson(id)`: unchanged when the id is already listed;
      otherwise the id is appended to the (possibly missing) list. */
  function CompleteLesson(s: Settings, id: string): (r: Settings)
    ensures id in ExposedCompleted(r)
    ensures id in ExposedCompleted(s) ==> r == s
    ensures id !in ExposedCompleted(s) ==> ExposedCompleted(r) == ExposedCompleted(s) + [id]
    ensures r == s.(completedLessons := r.completedLessons)
  {
    if s.completedLessons.Some? && id in s.completedLessons.value then s
    else s.(completedLessons := Some(ExposedCompleted(s) + [id]))
  }

  /** Completing twice is completing once, and a list without repeats stays
      without repeats. */
  lemma CompleteLessonIdempotent(s: Settings, id: string)
    ensures CompleteLesson(CompleteLesson(s, id), id) == CompleteLesson(s, id)
    ensures NoDuplicates(ExposedCompleted(s)) ==> NoDuplicates(ExposedCompleted(CompleteLesson(s, id)))
  {
    if NoDuplicates(ExposedCompleted(s)) && id !in ExposedCompleted(s) {
      AppendFreshKeepsNoDuplicates(ExposedCompleted(s), id);
    }
  }

  /** Completion only grows the list: everything listed before stays
      listed. */
  lemma CompleteLessonKeeps(s: Settings, id: string, other: string)
    ensures other in ExposedCompleted(s) ==> other in ExposedCompleted(CompleteLesson(s, id))
    ensures other in ExposedCompleted(CompleteLesson(s, id)) ==> other in ExposedCompleted(s) || other == id
  {
  }
}
