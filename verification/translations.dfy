/** The interface strings (src/i18n/translations.js): an English and a
    French table of nested groups, and the lookup `t`, which splits a key on
    dots, walks the table of the chosen language with optional chaining and
    shows the key itself when the walk ends on a falsy value. */
module Translations {
  import opened Common

  /** A table node: a string, or a group of named entries in source order. */
  datatype Entry = Leaf(text: string) | Group(fields: seq<Field>)
  datatype Field = Field(name: string, entry: Entry)

  const EnDashboard: Entry := Group([
    Field("title", Leaf("Learn Computer Skills")),
    Field("subtitle", Leaf("Master essential digital skills through interactive, hands-on lessons")),
    Field("settings", Leaf("Settings")),
    Field("courses", Leaf("Available Courses"))])

  const EnSettings: Entry := Group([
    Field("title", Leaf("Settings")),
    Field("displayLanguage", Leaf("Display Language")),
    Field("displayLanguageDesc", Leaf("Choose the language for the user interface")),
    Field("narrationLanguage", Leaf("Narration Language")),
    Field("narrationLanguageDesc", Leaf("Choose the language for voice-over")),
    Field("narratorVoice", Leaf("Narrator Voice")),
    Field("narratorVoiceDesc", Leaf("Select your preferred narrator")),
    Field("testVoice", Leaf("Test Voice")),
    Field("testText", Leaf("Hello! This is how I will sound when reading the lessons.")),
    Field("save", Leaf("Save Changes")),
    Field("cancel", Leaf("Cancel")),
    Field("english", Leaf("English")),
    Field("french", Leaf("Français (French)")),
    Field("selectVoice", Leaf("Select a voice...")),
    Field("voiceSettings", Leaf("Voice-Over Settings"))])

  const EnCourse: Entry := Group([
    Field("backToDashboard", Leaf("Back to Dashboard")),
    Field("backToCourse", Leaf("Back to Course")),
    Field("startLesson", Leaf("Start Lesson")),
    Field("lessonOverview", Leaf("Lesson Overview")),
    Field("whatYouLearn", Leaf("What You'll Learn")),
    Field("yourProgress", Leaf("Your Progress")),
    Field("estimatedTime", Leaf("Estimated Time")),
    Field("step", Leaf("Step")),
    Field("of", Leaf("of")),
    Field("complete", Leaf("Complete")),
    Field("previousStep", Leaf("Previous Step")),
    Field("nextLesson", Leaf("Next Lesson")),
    Field("restartLesson", Leaf("Restart Lesson")),
    Field("lessonComplete", Leaf("Lesson Complete!")),
    Field("congratulations", Leaf("Great job! You've mastered this lesson.")),
    Field("yourTask", Leaf("Your Task")),
    Field("learn", Leaf("Learn")),
    Field("explanation", Leaf("Explanation")),
    Field("correct", Leaf("Correct!")),
    Field("notQuite", Leaf("Not quite right")),
    Field("tryAgain", Leaf("Try following the instruction above carefully.")),
    Field("minutes", Leaf("minutes")),
    Field("steps", Leaf("steps")),
    Field("courseLessons", Leaf("Course Lessons")),
    Field("completed", Leaf("Completed")),
    Field("start", Leaf("Start")),
    Field("locked", Leaf("Locked"))])

  /** The English table (lines 2-55). */
  const English: Entry := Group([Field("dashboard", EnDashboard), Field("settings", EnSettings), Field("course", EnCourse)])

  const FrDashboard: Entry := Group([
    Field("title", Leaf("Apprendre les Compétences Informatiques")),
    Field("subtitle", Leaf("Maîtrisez les compétences numériques essentielles grâce à des leçons interactives et pratiques")),
    Field("settings", Leaf("Paramètres")),
    Field("courses", Leaf("Cours Disponibles"))])

  const FrSettings: Entry := Group([
    Field("title", Leaf("Paramètres")),
    Field("displayLanguage", Leaf("Langue d'Affichage")),
    Field("displayLanguageDesc", Leaf("Choisissez la langue de l'interface utilisateur")),
    Field("narrationLanguage", Leaf("Langue de Narration")),
    Field("narrationLanguageDesc", Leaf("Choisissez la langue pour la voix off")),
    Field("narratorVoice", Leaf("Voix du Narrateur")),
    Field("narratorVoiceDesc", Leaf("Sélectionnez votre narrateur préféré")),
    Field("testVoice", Leaf("Tester la Voix")),
    Field("testText", Leaf("Bonjour! C'est ainsi que je sonnerai en lisant les leçons.")),
    Field("save", Leaf("Enregistrer les Modifications")),
    Field("cancel", Leaf("Annuler")),
    Field("english", Leaf("English (Anglais)")),
    Field("french", Leaf("Français")),
    Field("selectVoice", Leaf("Sélectionner une voix...")),
    Field("voiceSettings", Leaf("Paramètres de Voix Off"))])

  const FrCourse: Entry := Group([
    Field("backToDashboard", Leaf("Retour au Tableau de Bord")),
    Field("backToCourse", Leaf("Retour au Cours")),
    Field("startLesson", Leaf("Commencer la Leçon")),
    Field("lessonOverview", Leaf("Aperçu de la Leçon")),
    Field("whatYouLearn", Leaf("Ce que Vous Allez Apprendre")),
    Field("yourProgress", Leaf("Votre Progression")),
    Field("estimatedTime", Leaf("Temps Estimé")),
    Field("step", Leaf("Étape")),
    Field("of", Leaf("sur")),
    Field("complete", Leaf("Terminé")),
    Field("previousStep", Leaf("Étape Précédente")),
    Field("nextLesson", Leaf("Leçon Suivante")),
    Field("restartLesson", Leaf("Recommencer la Leçon")),
    Field("lessonComplete", Leaf("Leçon Terminée!")),
    Field("congratulations", Leaf("Excellent travail! Vous avez maîtrisé cette leçon.")),
    Field("yourTask", Leaf("Votre Tâche")),
    Field("learn", Leaf("Apprendre")),
    Field("explanation", Leaf("Explication")),
    Field("correct", Leaf("Correct!")),
    Field("notQuite", Leaf("Pas tout à fait")),
    Field("tryAgain", Leaf("Essayez de suivre attentivement l'instruction ci-dessus.")),
    Field("minutes", Leaf("minutes")),
    Field("steps", Leaf("étapes")),
    Field("courseLessons", Leaf("Leçons du Cours")),
    Field("completed", Leaf("Terminé")),
    Field("start", Leaf("Commencer")),
    Field("locked", Leaf("Verrouillé"))])

  /** The French table (lines 56-109). */
  const French: Entry := Group([Field("dashboard", FrDashboard), Field("settings", FrSettings), Field("course", FrCourse)])

  /** The exported object: one table per language. */
  const Tables: Entry := Group([Field("en", English), Field("fr", French)])

  // ---- Table shape ----

  /** No two fields share a name (an object literal has one value per
      key). */
  predicate DistinctNames(fs: seq<Field>) {
    forall i, j :: 0 <= i < j < |fs| ==> fs[i].name != fs[j].name
  }

  /** The same names in the same order. */
  predicate SameNames(fs: seq<Field>, gs: seq<Field>) {
    |fs| == |gs| && forall i :: 0 <= i < |fs| ==> fs[i].name == gs[i].name
  }

  /** No group repeats a name (an object literal has one value per key). */
  predicate NamesUnique(e: Entry)
    decreases e
  {
    match e
    case Leaf(_) => true
    case Group(fs) => DistinctNames(fs) && forall i :: 0 <= i < |fs| ==> NamesUnique(fs[i].entry)
  }

  /** Every string in the table is non-empty. */
  predicate NonEmptyLeaves(e: Entry)
    decreases e
  {
    match e
    case Leaf(t) => t != ""
    case Group(fs) => forall i :: 0 <= i < |fs| ==> NonEmptyLeaves(fs[i].entry)
  }

  /** Every string sits exactly `d` groups deep. */
  predicate LeavesAt(e: Entry, d: nat)
    decreases e
  {
    match e
    case Leaf(_) => d == 0
    case Group(fs) => d > 0 && forall i :: 0 <= i < |fs| ==> LeavesAt(fs[i].entry, d - 1)
  }

  /** Same names in the same order at every level, strings where strings are. */
  predicate SameShape(a: Entry, b: Entry)
    decreases a
  {
    match a
    case Leaf(_) => b.Leaf?
    case Group(fs) =>
      && b.Group? && |fs| == |b.fields|
      && forall i :: 0 <= i < |fs| ==>
           fs[i].name == b.fields[i].name && SameShape(fs[i].entry, b.fields[i].entry)
  }

  /** `path` names a string of the table: each step picks a field with that
      name, the last one holding `text`. */
  predicate HasPath(e: Entry, path: seq<string>, text: string)
    decreases path
  {
    && path != []
    && e.Group?
    && exists i :: 0 <= i < |e.fields| && e.fields[i].name == path[0] &&
         if |path| == 1 then e.fields[i].entry == Leaf(text) else HasPath(e.fields[i].entry, path[1..], text)
  }

  /** A group of non-empty strings under distinct names. */
  predicate FlatSection(e: Entry) {
    && e.Group?
    && DistinctNames(e.fields)
    && forall i :: 0 <= i < |e.fields| ==> e.fields[i].entry.Leaf? && e.fields[i].entry.text != ""
  }

  lemma FlatSectionFacts(e: Entry)
    requires FlatSection(e)
    ensures NamesUnique(e) && NonEmptyLeaves(e) && LeavesAt(e, 1)
  {
  }

  lemma FlatSectionsSameShape(a: Entry, b: Entry)
    requires FlatSection(a) && FlatSection(b) && SameNames(a.fields, b.fields)
    ensures SameShape(a, b)
  {
  }

  /** Strings under distinct names make a flat section. */
  lemma SectionIsFlat(e: Entry)
    requires e.Group? && DistinctNames(e.fields)
    requires forall i :: 0 <= i < |e.fields| ==> e.fields[i].entry.Leaf? && e.fields[i].entry.text != ""
    ensures FlatSection(e)
  {
  }

  /** The keys of a section, in source order. */
  predicate HasKeys(fs: seq<Field>, keys: seq<string>) {
    |fs| == |keys| && forall i :: 0 <= i < |fs| ==> fs[i].name == keys[i]
  }

  predicate DistinctKeys(keys: seq<string>) {
    forall i, j :: 0 <= i < j < |keys| ==> keys[i] != keys[j]
  }

  /** Distinct keys make distinct names. */
  lemma KeyedNamesDistinct(fs: seq<Field>, keys: seq<string>)
    requires HasKeys(fs, keys) && DistinctKeys(keys)
    ensures DistinctNames(fs)
  {
    forall i, j | 0 <= i < j < |fs| ensures fs[i].name != fs[j].name {
      assert fs[i].name == keys[i] && fs[j].name == keys[j];
    }
  }

  /** Two sections with the same keys have the same names. */
  lemma SharedKeysSameNames(fs: seq<Field>, gs: seq<Field>, keys: seq<string>)
    requires HasKeys(fs, keys) && HasKeys(gs, keys)
    ensures SameNames(fs, gs)
  {
  }

  const DashboardKeys: seq<string> := [
    "title", "subtitle", "settings", "courses"]

  lemma DashboardKeysDistinct()
    ensures DistinctKeys(DashboardKeys)
  {
  }

  lemma DashboardKeysInBoth()
    ensures EnDashboard.Group? && HasKeys(EnDashboard.fields, DashboardKeys)
    ensures FrDashboard.Group? && HasKeys(FrDashboard.fields, DashboardKeys)
  {
    DashboardKeysInEnglish();
    DashboardKeysInFrench();
  }

  lemma DashboardKeysInEnglish()
    ensures EnDashboard.Group? && HasKeys(EnDashboard.fields, DashboardKeys)
  {
  }

  lemma DashboardKeysInFrench()
    ensures FrDashboard.Group? && HasKeys(FrDashboard.fields, DashboardKeys)
  {
  }

  lemma DashboardEnglish()
    ensures FlatSection(EnDashboard)
  {
    DashboardKeysDistinct();
    DashboardKeysInBoth();
    KeyedNamesDistinct(EnDashboard.fields, DashboardKeys);
    DashboardEnglishLeaves();
    SectionIsFlat(EnDashboard);
  }

  lemma DashboardEnglishLeaves()
    ensures EnDashboard.Group?
    ensures forall i :: 0 <= i < |EnDashboard.fields| ==> EnDashboard.fields[i].entry.Leaf? && EnDashboard.fields[i].entry.text != ""
  {
  }

  lemma DashboardFrench()
    ensures FlatSection(FrDashboard)
  {
    DashboardKeysDistinct();
    DashboardKeysInBoth();
    KeyedNamesDistinct(FrDashboard.fields, DashboardKeys);
    DashboardFrenchLeaves();
    SectionIsFlat(FrDashboard);
  }

  lemma DashboardFrenchLeaves()
    ensures FrDashboard.Group?
    ensures forall i :: 0 <= i < |FrDashboard.fields| ==> FrDashboard.fields[i].entry.Leaf? && FrDashboard.fields[i].entry.text != ""
  {
  }

  lemma DashboardNamesAgree()
    ensures SameNames(EnDashboard.fields, FrDashboard.fields)
  {
    DashboardKeysInBoth();
    SharedKeysSameNames(EnDashboard.fields, FrDashboard.fields, DashboardKeys);
  }

  const SettingsKeys: seq<string> := [
    "title", "displayLanguage", "displayLanguageDesc", "narrationLanguage",
    "narrationLanguageDesc", "narratorVoice", "narratorVoiceDesc", "testVoice", "testText", "save",
    "cancel", "english", "french", "selectVoice", "voiceSettings"]

  lemma SettingsKeysDistinct()
    ensures DistinctKeys(SettingsKeys)
  {
  }

  lemma SettingsKeysInBoth()
    ensures EnSettings.Group? && HasKeys(EnSettings.fields, SettingsKeys)
    ensures FrSettings.Group? && HasKeys(FrSettings.fields, SettingsKeys)
  {
    SettingsKeysInEnglish();
    SettingsKeysInFrench();
  }

  lemma SettingsKeysInEnglish()
    ensures EnSettings.Group? && HasKeys(EnSettings.fields, SettingsKeys)
  {
  }

  lemma SettingsKeysInFrench()
    ensures FrSettings.Group? && HasKeys(FrSettings.fields, SettingsKeys)
  {
  }

  lemma SettingsEnglish()
    ensures FlatSection(EnSettings)
  {
    SettingsKeysDistinct();
    SettingsKeysInBoth();
    KeyedNamesDistinct(EnSettings.fields, SettingsKeys);
    SettingsEnglishLeaves();
    SectionIsFlat(EnSettings);
  }

  lemma SettingsEnglishLeaves()
    ensures EnSettings.Group?
    ensures forall i :: 0 <= i < |EnSettings.fields| ==> EnSettings.fields[i].entry.Leaf? && EnSettings.fields[i].entry.text != ""
  {
  }

  lemma SettingsFrench()
    ensures FlatSection(FrSettings)
  {
    SettingsKeysDistinct();
    SettingsKeysInBoth();
    KeyedNamesDistinct(FrSettings.fields, SettingsKeys);
    SettingsFrenchLeaves();
    SectionIsFlat(FrSettings);
  }

  lemma SettingsFrenchLeaves()
    ensures FrSettings.Group?
    ensures forall i :: 0 <= i < |FrSettings.fields| ==> FrSettings.fields[i].entry.Leaf? && FrSettings.fields[i].entry.text != ""
  {
  }

  lemma SettingsNamesAgree()
    ensures SameNames(EnSettings.fields, FrSettings.fields)
  {
    SettingsKeysInBoth();
    SharedKeysSameNames(EnSettings.fields, FrSettings.fields, SettingsKeys);
  }

  const CourseKeys: seq<string> := [
    "backToDashboard", "backToCourse", "startLesson", "lessonOverview", "whatYouLearn",
    "yourProgress", "estimatedTime", "step", "of", "complete", "previousStep", "nextLesson",
    "restartLesson", "lessonComplete", "congratulations", "yourTask", "learn", "explanation",
    "correct", "notQuite", "tryAgain", "minutes", "steps", "courseLessons", "completed", "start",
    "locked"]

  lemma CourseKeysDistinct()
    ensures DistinctKeys(CourseKeys)
  {
    CourseKeysFrontDistinct();
    CourseKeysBackDistinct();
    CourseKeysHalvesApart();
    DistinctConcat(CourseKeys[..14], CourseKeys[14..]);
    assert CourseKeys[..14] + CourseKeys[14..] == CourseKeys;
  }

  lemma CourseKeysFrontDistinct()
    ensures DistinctKeys(CourseKeys[..14])
  {
  }

  lemma CourseKeysBackDistinct()
    ensures DistinctKeys(CourseKeys[14..])
  {
  }

  lemma CourseKeysHalvesApart()
    ensures forall i, j :: 0 <= i < 14 <= j < |CourseKeys| ==> CourseKeys[i] != CourseKeys[j]
  {
  }

  /** Two key lists without repeats and without a common key concatenate
      to a list without repeats. */
  lemma DistinctConcat(a: seq<string>, b: seq<string>)
    requires DistinctKeys(a) && DistinctKeys(b)
    requires forall i, j :: 0 <= i < |a| && 0 <= j < |b| ==> a[i] != b[j]
    ensures DistinctKeys(a + b)
  {
    forall i, j | 0 <= i < j < |a + b| ensures (a + b)[i] != (a + b)[j] {
      if j < |a| {
        assert (a + b)[i] == a[i] && (a + b)[j] == a[j];
      } else if i < |a| {
        assert (a + b)[i] == a[i] && (a + b)[j] == b[j - |a|];
      } else {
        assert (a + b)[i] == b[i - |a|] && (a + b)[j] == b[j - |a|];
      }
    }
  }

  lemma CourseKeysInBoth()
    ensures EnCourse.Group? && HasKeys(EnCourse.fields, CourseKeys)
    ensures FrCourse.Group? && HasKeys(FrCourse.fields, CourseKeys)
  {
    CourseKeysInEnglish();
    CourseKeysInFrench();
  }

  lemma CourseKeysInEnglish()
    ensures EnCourse.Group? && HasKeys(EnCourse.fields, CourseKeys)
  {
  }

  lemma CourseKeysInFrench()
    ensures FrCourse.Group? && HasKeys(FrCourse.fields, CourseKeys)
  {
  }

  lemma CourseEnglish()
    ensures FlatSection(EnCourse)
  {
    CourseKeysDistinct();
    CourseKeysInBoth();
    KeyedNamesDistinct(EnCourse.fields, CourseKeys);
    CourseEnglishLeaves();
    SectionIsFlat(EnCourse);
  }

  lemma CourseEnglishLeaves()
    ensures EnCourse.Group?
    ensures forall i :: 0 <= i < |EnCourse.fields| ==> EnCourse.fields[i].entry.Leaf? && EnCourse.fields[i].entry.text != ""
  {
  }

  lemma CourseFrench()
    ensures FlatSection(FrCourse)
  {
    CourseKeysDistinct();
    CourseKeysInBoth();
    KeyedNamesDistinct(FrCourse.fields, CourseKeys);
    CourseFrenchLeaves();
    SectionIsFlat(FrCourse);
  }

  lemma CourseFrenchLeaves()
    ensures FrCourse.Group?
    ensures forall i :: 0 <= i < |FrCourse.fields| ==> FrCourse.fields[i].entry.Leaf? && FrCourse.fields[i].entry.text != ""
  {
  }

  lemma CourseNamesAgree()
    ensures SameNames(EnCourse.fields, FrCourse.fields)
  {
    CourseKeysInBoth();
    SharedKeysSameNames(EnCourse.fields, FrCourse.fields, CourseKeys);
  }

  /** Each language table: three distinct sections of strings. */
  lemma LanguageTable(e: Entry, dashboard: Entry, settings: Entry, course: Entry)
    requires e == Group([Field("dashboard", dashboard), Field("settings", settings), Field("course", course)])
    requires FlatSection(dashboard) && FlatSection(settings) && FlatSection(course)
    ensures NamesUnique(e) && NonEmptyLeaves(e) && LeavesAt(e, 2)
  {
    FlatSectionFacts(dashboard);
    FlatSectionFacts(settings);
    FlatSectionFacts(course);
  }

  /** Both tables are well formed and describe the same keys. */
  lemma TablesWellFormed()
    ensures NamesUnique(Tables) && NonEmptyLeaves(Tables) && LeavesAt(Tables, 3)
    ensures NamesUnique(English) && NonEmptyLeaves(English) && LeavesAt(English, 2)
    ensures NonEmptyLeaves(French)
    ensures SameShape(English, French)
  {
    DashboardEnglish(); DashboardFrench(); DashboardNamesAgree();
    SettingsEnglish(); SettingsFrench(); SettingsNamesAgree();
    CourseEnglish(); CourseFrench(); CourseNamesAgree();
    LanguageTable(English, EnDashboard, EnSettings, EnCourse);
    LanguageTable(French, FrDashboard, FrSettings, FrCourse);
    FlatSectionsSameShape(EnDashboard, FrDashboard);
    FlatSectionsSameShape(EnSettings, FrSettings);
    FlatSectionsSameShape(EnCourse, FrCourse);
  }

  // ---- The values the walk meets ----

  /** A JavaScript value as far as the walk can see it. */
  datatype Value = Undefined | Str(s: string) | Num(n: nat) | Obj(fields: seq<Field>)

  function ValueOf(e: Entry): Value {
    match e
    case Leaf(t) => Str(t)
    case Group(fs) => Obj(fs)
  }

  predicate Truthy(v: Value) {
    match v
    case Undefined => false
    case Str(s) => s != ""
    case Num(n) => n != 0
    case Obj(_) => true
  }

  /** Position of the first field with this name. */
  function Find(fs: seq<Field>, name: string): (r: Option<nat>)
    ensures r.Some? ==> r.value < |fs| && fs[r.value].name == name
    ensures r.Some? ==> forall j :: 0 <= j < r.value ==> fs[j].name != name
    ensures r.None? <==> forall j :: 0 <= j < |fs| ==> fs[j].name != name
  {
    if fs == [] then None
    else if fs[0].name == name then Some(0)
    else
      var rest := Find(fs[1..], name);
      if rest.Some? then Some(rest.value + 1) else None
  }

  /** With unique names, the field that carries a name is the one found. */
  lemma FindUnique(fs: seq<Field>, name: string, i: nat)
    requires DistinctNames(fs)
    requires i < |fs| && fs[i].name == name
    ensures Find(fs, name) == Some(i)
  {
  }

  /** Groups whose names agree position by position find the same field. */
  lemma FindSameNames(fs: seq<Field>, gs: seq<Field>, name: string)
    requires SameNames(fs, gs)
    ensures Find(fs, name) == Find(gs, name)
  {
  }

  predicate IsDigit(ch: char) {
    '0' <= ch <= '9'
  }

  /** The number a string of decimal digits denotes. */
  function DigitsValue(k: string): nat
    requires forall i :: 0 <= i < |k| ==> IsDigit(k[i])
  {
    if k == [] then 0
    else
      assert IsDigit(k[|k| - 1]);
      10 * DigitsValue(k[..|k| - 1]) + (k[|k| - 1] as int - '0' as int)
  }

  /** The decimal spelling of a number. */
  function Decimal(n: nat): (k: string)
    ensures k != [] && forall i :: 0 <= i < |k| ==> IsDigit(k[i])
    ensures |k| == 1 || k[0] != '0'
  {
    var last := [(('0' as int) + n % 10) as char];
    if n < 10 then last
    else
      var k := Decimal(n / 10) + last;
      assert k[0] == Decimal(n / 10)[0];
      k
  }

  /** A string property names a character of a string exactly when it is a
      canonical array index: digits, with no leading zero. */
  function ArrayIndex(k: string): (r: Option<nat>)
    ensures r.Some? <==> k != [] && (forall i :: 0 <= i < |k| ==> IsDigit(k[i])) && (|k| == 1 || k[0] != '0')
  {
    if k != [] && (forall i :: 0 <= i < |k| ==> IsDigit(k[i])) && (|k| == 1 || k[0] != '0')
    then Some(DigitsValue(k)) else None
  }

  /** Reading back the spelling of a number gives the number. */
  lemma {:induction false} DecimalRoundTrip(n: nat)
    ensures ArrayIndex(Decimal(n)) == Some(n)
  {
    var k := Decimal(n);
    var last := (('0' as int) + n % 10) as char;
    assert k[|k| - 1] == last && last as int - '0' as int == n % 10;
    if n >= 10 {
      DecimalRoundTrip(n / 10);
      assert k[..|k| - 1] == Decimal(n / 10);
    } else {
      assert k == [last] && k[..|k| - 1] == [];
      assert DigitsValue(k) == 10 * DigitsValue([]) + n % 10;
    }
  }

  /** `value?.[k]`: nothing past `undefined`; a field of a group; the
      length or a one-character string of a string. Inherited members are
      not modelled. */
  function Member(v: Value, k: string): (r: Value)
    ensures v.Undefined? || v.Num? ==> r == Undefined
    ensures v.Obj? ==> (r.Undefined? <==> Find(v.fields, k).None?)
    ensures v.Str? && k == "length" ==> r == Num(|v.s|)
    ensures v.Str? && k != "length" && r.Str? ==> |r.s| == 1 && r.s[0] in v.s
  {
    match v
    case Undefined => Undefined
    case Num(_) => Undefined
    case Obj(fs) =>
      var i := Find(fs, k);
      if i.Some? then ValueOf(fs[i.value].entry) else Undefined
    case Str(s) =>
      if k == "length" then Num(|s|)
      else
        var i := ArrayIndex(k);
        if i.Some? && i.value < |s| then Str([s[i.value]]) else Undefined
  }

  /** The `for (const k of keys)` loop. */
  function Walk(v: Value, keys: seq<string>): (r: Value)
    ensures v.Undefined? ==> r.Undefined?
    ensures keys == [] ==> r == v
    decreases |keys|
  {
    if keys == [] then v else Walk(Member(v, keys[0]), keys[1..])
  }

  /** With unique names, a path of the table leads to its string. */
  lemma {:induction false} WalkFollowsPath(e: Entry, path: seq<string>, text: string)
    requires NamesUnique(e)
    requires HasPath(e, path, text)
    ensures Walk(ValueOf(e), path) == Str(text)
    decreases path
  {
    var i :| 0 <= i < |e.fields| && e.fields[i].name == path[0] &&
             if |path| == 1 then e.fields[i].entry == Leaf(text) else HasPath(e.fields[i].entry, path[1..], text);
    FindUnique(e.fields, path[0], i);
    if |path| > 1 {
      WalkFollowsPath(e.fields[i].entry, path[1..], text);
    }
  }

  /** Conversely, a walk no longer than the table's depth that ends on a
      string followed a path of the table. */
  lemma {:induction false} WalkEndsOnPath(e: Entry, path: seq<string>, d: nat)
    requires LeavesAt(e, d) && 0 < |path| <= d
    requires Walk(ValueOf(e), path).Str?
    ensures HasPath(e, path, Walk(ValueOf(e), path).s)
    decreases path
  {
    var i := Find(e.fields, path[0]);
    if i.Some? {
      var child := e.fields[i.value].entry;
      assert Walk(ValueOf(e), path) == Walk(ValueOf(child), path[1..]);
      if |path| > 1 {
        if child.Leaf? {
          assert false;
        }
        WalkEndsOnPath(child, path[1..], d - 1);
      }
    }
  }

  /** Tables of the same shape, with non-empty strings at the same depth,
      give a truthy value for exactly the same keys of at most that depth. */
  lemma {:induction false} WalkAlike(a: Entry, b: Entry, d: nat, keys: seq<string>)
    requires SameShape(a, b) && LeavesAt(a, d) && |keys| <= d
    requires NonEmptyLeaves(a) && NonEmptyLeaves(b)
    ensures Truthy(Walk(ValueOf(a), keys)) <==> Truthy(Walk(ValueOf(b), keys))
    decreases keys
  {
    if keys != [] {
      FindSameNames(a.fields, b.fields, keys[0]);
      var i := Find(a.fields, keys[0]);
      if i.None? {
        assert Walk(ValueOf(a), keys) == Walk(Undefined, keys[1..]);
        assert Walk(ValueOf(b), keys) == Walk(Undefined, keys[1..]);
      } else {
        var x, y := a.fields[i.value].entry, b.fields[i.value].entry;
        assert Walk(ValueOf(a), keys) == Walk(ValueOf(x), keys[1..]);
        assert Walk(ValueOf(b), keys) == Walk(ValueOf(y), keys[1..]);
        WalkAlike(x, y, d - 1, keys[1..]);
      }
    }
  }

  // ---- Keys ----

  /** `key.split('.')`: every dot separates two parts, so an empty key is
      one empty part and a doubled dot gives an empty part between. */
  function SplitPath(key: string): (parts: seq<string>)
    ensures |parts| >= 1
    ensures forall i :: 0 <= i < |parts| ==> '.' !in parts[i]
  {
    if key == [] then [""]
    else
      var rest := SplitPath(key[1..]);
      if key[0] == '.' then [""] + rest
      else [[key[0]] + rest[0]] + rest[1..]
  }

  /** `parts.join('.')`. */
  function JoinPath(parts: seq<string>): string
    requires |parts| >= 1
  {
    if |parts| == 1 then parts[0] else parts[0] + "." + JoinPath(parts[1..])
  }

  /** Splitting and joining back restores the key. */
  lemma {:induction false} JoinSplit(key: string)
    ensures JoinPath(SplitPath(key)) == key
  {
    if key != [] {
      JoinSplit(key[1..]);
      var rest := SplitPath(key[1..]);
      if key[0] == '.' {
        assert key == "." + key[1..];
      } else if |rest| == 1 {
        assert key == [key[0]] + rest[0];
      } else {
        assert JoinPath(rest) == rest[0] + "." + JoinPath(rest[1..]);
        assert key == [key[0]] + rest[0] + "." + JoinPath(rest[1..]);
      }
    }
  }

  /** Splitting a key that ends with a dot-free part. */
  lemma {:induction false} SplitDotFree(part: string, tail: string)
    requires '.' !in part
    ensures SplitPath(part) == [part]
    ensures SplitPath(part + "." + tail) == [part] + SplitPath(tail)
    decreases |part|
  {
    if part != [] {
      assert (part + "." + tail)[1..] == part[1..] + "." + tail;
      SplitDotFree(part[1..], tail);
      assert [part[0]] + part[1..] == part;
    } else {
      assert part + "." + tail == "." + tail;
    }
  }

  /** Joining dot-free parts and splitting again gives the parts back. */
  lemma {:induction false} SplitJoin(parts: seq<string>)
    requires |parts| >= 1
    requires forall i :: 0 <= i < |parts| ==> '.' !in parts[i]
    ensures SplitPath(JoinPath(parts)) == parts
  {
    if |parts| == 1 {
      SplitDotFree(parts[0], "");
    } else {
      SplitDotFree(parts[0], JoinPath(parts[1..]));
      SplitJoin(parts[1..]);
    }
  }

  // ---- The hook ----

  /** The language the hook uses: the argument, or English when none is
      passed. */
  function Language(language: Option<string>): (lang: string)
    ensures language.None? ==> lang == "en"
    ensures language.Some? ==> lang == language.value
  {
    language.GetOr("en")
  }

  /** The value the walk reaches before the fallback. */
  function Resolved(language: Option<string>, key: string): (v: Value)
    ensures Language(language) == "en" ==> v == Walk(ValueOf(English), SplitPath(key))
    ensures Language(language) == "fr" ==> v == Walk(ValueOf(French), SplitPath(key))
    ensures Language(language) != "en" && Language(language) != "fr" ==> v == Undefined
  {
    LanguageValues();
    var lang := Language(language);
    assert lang != "en" && lang != "fr" ==> Member(ValueOf(Tables), lang) == Undefined;
    Walk(Member(ValueOf(Tables), lang), SplitPath(key))
  }

  /** `t(key)`: the walk's value when truthy, the key otherwise. */
  function T(language: Option<string>, key: string): (r: Value)
    ensures Truthy(Resolved(language, key)) ==> r == Resolved(language, key)
    ensures !Truthy(Resolved(language, key)) ==> r == Str(key)
    ensures key != "" ==> Truthy(r)
  {
    var v := Resolved(language, key);
    if Truthy(v) then v else Str(key)
  }

  /** Every string of a language's table is shown for its dotted key. */
  lemma TableTextIsShown(lang: string, path: seq<string>, text: string)
    requires |path| >= 1 && forall i :: 0 <= i < |path| ==> '.' !in path[i]
    requires HasPath(Tables, [lang] + path, text)
    ensures T(Some(lang), JoinPath(path)) == Str(text)
  {
    TablesWellFormed();
    SplitJoin(path);
    assert ([lang] + path)[1..] == path;
    WalkFollowsPath(Tables, [lang] + path, text);
    assert HasPath(Tables, [lang] + path, text) ==> NonEmptyLeaves(Tables);
    NonEmptyPath(Tables, [lang] + path, text);
  }

  /** A path of a table without empty strings ends on a non-empty string. */
  lemma {:induction false} NonEmptyPath(e: Entry, path: seq<string>, text: string)
    requires NonEmptyLeaves(e) && HasPath(e, path, text)
    ensures text != ""
    decreases path
  {
    var i :| 0 <= i < |e.fields| && e.fields[i].name == path[0] &&
             if |path| == 1 then e.fields[i].entry == Leaf(text) else HasPath(e.fields[i].entry, path[1..], text);
    if |path| > 1 {
      NonEmptyPath(e.fields[i].entry, path[1..], text);
    }
  }

  /** The exported object's members are the two tables. */
  lemma LanguageValues()
    ensures Member(ValueOf(Tables), "en") == ValueOf(English)
    ensures Member(ValueOf(Tables), "fr") == ValueOf(French)
  {
    var fs := Tables.fields;
    assert fs[0].name == "en" && fs[1].name == "fr";
    assert Find(fs, "en") == Some(0);
    assert fs[1..][0].name == "fr";
    assert Find(fs[1..], "fr") == Some(0);
    assert Find(fs, "fr") == Some(1);
  }

  /** A language without a table shows every key as itself. */
  lemma UnknownLanguageShowsKey(lang: string, key: string)
    requires lang != "en" && lang != "fr"
    ensures T(Some(lang), key) == Str(key)
  {
    assert Member(ValueOf(Tables), lang) == Undefined;
  }

  /** English and French find a value for exactly the same keys of up to two
      parts: the tables have the same keys and no empty string. */
  lemma LanguagesFallBackAlike(key: string)
    requires |SplitPath(key)| <= 2
    ensures Truthy(Resolved(Some("en"), key)) <==> Truthy(Resolved(Some("fr"), key))
  {
    TablesWellFormed();
    LanguageValues();
    WalkAlike(English, French, 2, SplitPath(key));
  }

  /** Walking a concatenated key walks its parts in turn. */
  lemma {:induction false} WalkConcat(v: Value, a: seq<string>, b: seq<string>)
    ensures Walk(v, a + b) == Walk(Walk(v, a), b)
    decreases |a|
  {
    if a == [] {
      assert a + b == b;
    } else {
      assert (a + b)[1..] == a[1..] + b;
      WalkConcat(Member(v, a[0]), a[1..], b);
    }
  }

  /** One key part past a string of the table still finds something: its
      length, or the character at a canonical index below the length. */
  lemma PastTheText(e: Entry, path: seq<string>, text: string, i: nat)
    requires NamesUnique(e) && HasPath(e, path, text)
    ensures Walk(ValueOf(e), path + ["length"]) == Num(|text|)
    ensures Walk(ValueOf(e), path + [Decimal(i)]) == if i < |text| then Str([text[i]]) else Undefined
  {
    WalkFollowsPath(e, path, text);
    WalkConcat(ValueOf(e), path, ["length"]);
    WalkConcat(ValueOf(e), path, [Decimal(i)]);
    DecimalRoundTrip(i);
    assert Decimal(i) != "length" by {
      assert IsDigit(Decimal(i)[0]);
    }
  }

  /** So the key of a table string, extended by an index, shows one
      character of the string while the index is below its length (a
      length that differs between the languages), and the key otherwise. */
  lemma IndexedKeyShowsCharacter(lang: string, path: seq<string>, text: string, i: nat)
    requires |path| >= 1 && forall j :: 0 <= j < |path| ==> '.' !in path[j]
    requires HasPath(Tables, [lang] + path, text)
    ensures var key := JoinPath(path + [Decimal(i)]);
            T(Some(lang), key) == if i < |text| then Str([text[i]]) else Str(key)
  {
    TablesWellFormed();
    var parts := path + [Decimal(i)];
    assert '.' !in Decimal(i);
    assert forall j :: 0 <= j < |parts| ==> '.' !in parts[j] by {
      forall j | 0 <= j < |parts| ensures '.' !in parts[j] {
        if j < |path| { assert parts[j] == path[j]; }
      }
    }
    SplitJoin(parts);
    PastTheText(Tables, [lang] + path, text, i);
    assert ([lang] + path) + [Decimal(i)] == [lang] + parts;
    assert ([lang] + parts)[1..] == parts;
  }

  /** A key naming a group shows the group itself, not the key. */
  lemma GroupKeyShowsGroup()
    ensures T(Some("en"), "dashboard").Obj?
  {
    SplitDotFree("dashboard", "");
  }
}
