/** The static catalog shipped with the application (src/data/courses.js):
    four courses, five lessons, one package. */
module Fixture {
  import opened Common
  import opened Localized
  import opened Catalog

  // ---- Windows 11 Basics ----

  const NavigatingDesktopOverview: Step := Overview(
    0,
    ByLang("Navigating the Desktop", "Naviguer sur le Bureau"),
    ByLang("Welcome to your first lesson! In this lesson, you'll learn how to navigate the Windows 11 desktop and use its essential features.",
           "Bienvenue dans votre première leçon ! Dans cette leçon, vous apprendrez à naviguer sur le bureau Windows 11 et à utiliser ses fonctionnalités essentielles."),
    ListByLang(["Locate and use the Start button", "Open the Start menu", "Access system settings", "Understand the taskbar layout"],
               ["Localiser et utiliser le bouton Démarrer", "Ouvrir le menu Démarrer", "Accéder aux paramètres système", "Comprendre la disposition de la barre des tâches"]))

  const ClickStartStep: Step := Interactive(
    1,
    ByLang("Click the Start button", "Cliquez sur le bouton Démarrer"),
    Some(ByLang("The Start button is the Windows logo icon located at the bottom-left corner of your screen on the taskbar. It's one of the most important buttons in Windows, giving you access to all your applications, files, and settings. The button glows when you hover over it.",
                "Le bouton Démarrer est l'icône du logo Windows située dans le coin inférieur gauche de votre écran sur la barre des tâches. C'est l'un des boutons les plus importants de Windows, vous donnant accès à toutes vos applications, fichiers et paramètres. Le bouton brille lorsque vous le survolez.")),
    Some(ByLang("Excellent! You've opened the Start menu. This menu is divided into two main sections: \"Pinned\" apps (your most-used applications) at the top, and \"Recommended\" items (recently opened files and apps) at the bottom. At the very bottom, you'll find the power button and your user profile.",
                "Excellent ! Vous avez ouvert le menu Démarrer. Ce menu est divisé en deux sections principales : les applications \"Épinglées\" (vos applications les plus utilisées) en haut, et les éléments \"Recommandés\" (fichiers et applications récemment ouverts) en bas. Tout en bas, vous trouverez le bouton d'alimentation et votre profil utilisateur.")),
    Some("click"), Some("start-button"))

  const OpenSettingsStep: Step := Interactive(
    2,
    ByLang("Click on the Settings icon", "Cliquez sur l'icône Paramètres"),
    Some(ByLang("Now that the Start menu is open, look for the gray gear icon labeled \"Settings\". The Settings app allows you to customize almost every aspect of Windows, from your wallpaper to your internet connection.",
                "Maintenant que le menu Démarrer est ouvert, recherchez l'icône d'engrenage grise intitulée \"Paramètres\". L'application Paramètres vous permet de personnaliser presque tous les aspects de Windows, de votre fond d'écran à votre connexion Internet.")),
    Some(ByLang("Perfect! You've launched the Settings app. Notice the sidebar on the left with different categories like System, Bluetooth, and Personalization. We'll explore these in more detail in future lessons.",
                "Parfait ! Vous avez lancé l'application Paramètres. Remarquez la barre latérale à gauche avec différentes catégories comme Système, Bluetooth et Personalisation. Nous les explorerons plus en détail dans les futures leçons.")),
    Some("click"), Some("settings-app"))

  const CloseSettingsStep: Step := Interactive(
    3,
    ByLang("Close the Settings window", "Fermez la fenêtre Paramètres"),
    Some(ByLang("The Settings window is now open. To close any application in Windows, you usually click the X button in the top-right corner of the window.",
                "La fenêtre Paramètres est maintenant ouverte. Pour fermer n'importe quelle application dans Windows, vous cliquez généralement sur le bouton X dans le coin supérieur droit de la fenêtre.")),
    Some(ByLang("Great job! You now know how to open applications from the Start menu and close them correctly. That concludes your first lesson!",
                "Excellent travail ! Vous savez maintenant comment ouvrir des applications depuis le menu Démarrer et les fermer correctement. Ceci conclut votre première leçon !")),
    Some("click"), Some("close-settings"))

  const StartMenuQuestion: Question := Question(
    "q1",
    ByLang("Which button opens the Start menu?", "Quel bouton ouvre le menu Démarrer ?"),
    [ QuizOption("a", ByLang("The Windows icon", "L'icône Windows"), true),
      QuizOption("b", ByLang("The Recycle Bin", "La Corbeille"), false),
      QuizOption("c", ByLang("The folder icon", "L'icône de dossier"), false) ])

  const CloseWindowQuestion: Question := Question(
    "q2",
    ByLang("How do you close an application window?", "Comment fermer une fenêtre d'application ?"),
    [ QuizOption("a", ByLang("Click inside the window", "Cliquez à l'intérieur de la fenêtre"), false),
      QuizOption("b", ByLang("Click the X in the top-right", "Cliquez sur le X en haut à droite"), true),
      QuizOption("c", ByLang("Turn off the screen", "Éteignez l'écran"), false) ])

  const DesktopQuiz: Step := Quiz(
    4, ByLang("Knowledge Check", "Quiz de Connaissances"), [StartMenuQuestion, CloseWindowQuestion])

  const NavigatingDesktop: Lesson := Lesson(
    "navigating-desktop",
    ByLang("Navigating the Desktop", "Naviguer sur le Bureau"),
    ByLang("Master the fundamentals of the Windows 11 desktop interface", "Maîtrisez les fondamentaux de l'interface du bureau Windows 11"),
    ByLang("5-10 minutes", "5-10 minutes"),
    false,
    [NavigatingDesktopOverview, ClickStartStep, OpenSettingsStep, CloseSettingsStep, DesktopQuiz])

  const ManagingFiles: Lesson := Lesson(
    "managing-files",
    Plain("Managing Files & Folders"),
    Plain("Learn to organize, create, and navigate files using File Explorer"),
    Plain("10-15 minutes"),
    true,
    [ Overview(0, Plain("Managing Files & Folders"),
               Plain("In this lesson, you'll master File Explorer, the essential tool for managing all your documents, photos, and files on your computer."),
               PlainList(["Open File Explorer", "Navigate between folders", "Create new folders", "Understand the file system structure"])) ])

  const CustomizingWindows: Lesson := Lesson(
    "customizing-windows",
    Plain("Customizing Windows"),
    Plain("Personalize your desktop with themes, wallpapers, and colors"),
    Plain("8-12 minutes"),
    true,
    [ Overview(0, Plain("Customizing Windows"),
               Plain("Make Windows 11 truly yours by learning how to customize its appearance and behavior."),
               PlainList(["Change desktop wallpaper", "Apply color themes", "Adjust taskbar settings", "Configure dark mode"])) ])

  const Windows11: Course := Course(
    "windows-11",
    ByLang("Windows 11 Basics", "Les Bases de Windows 11"),
    ByLang("Learn to navigate the desktop, start menu, and manage files in the latest Windows.",
           "Apprenez à naviguer sur le bureau, le menu Démarrer et à gérer les fichiers dans le dernier Windows."),
    "🪟", "#0078d4", "19.99",
    [NavigatingDesktop, ManagingFiles, CustomizingWindows])

  // ---- Microsoft Word ----

  const WordWelcomeOverview: Step := Overview(
    0,
    ByLang("Welcome to Word", "Bienvenue dans Word"),
    ByLang("Microsoft Word is the world standard for word processing. In this lesson, you will learn how to create a new document and start typing.",
           "Microsoft Word est la norme mondiale pour le traitement de texte. Dans cette leçon, vous apprendrez à créer un nouveau document et à commencer à taper."),
    ListByLang(["Create a blank document", "Type text on the page", "Understand the layout"],
               ["Créer un document vierge", "Taper du texte sur la page", "Comprendre la mise en page"]))

  const OpenBlankDocStep: Step := Interactive(
    1,
    ByLang("Click \"Blank document\" to start.", "Cliquez sur \"Document vierge\" pour commencer."),
    Some(ByLang("When you open Word, you start on the Home screen. Here you can access recent files or create new ones using templates.",
                "Lorsque vous ouvrez Word, vous démarrez sur l'écran d'accueil. Ici, vous pouvez accéder aux fichiers récents ou en créer de nouveaux à l'aide de modèles.")),
    Some(ByLang("Great! You have opened the main Editor. The large white area is your paper, and the bar at the top is called the Ribbon.",
                "Super ! Vous avez ouvert l'éditeur principal. La grande zone blanche est votre papier et la barre en haut s'appelle le Ruban.")),
    Some("click"), Some("word-blank-doc"))

  const TypeOnPageStep: Step := Interactive(
    2,
    ByLang("Click on the white page to type.", "Cliquez sur la page blanche pour écrire."),
    Some(ByLang("To start writing, simply click where you want the text to appear. The blinking line is your cursor.",
                "Pour commencer à écrire, cliquez simplement là où vous voulez que le texte apparaisse. La ligne clignotante est votre curseur.")),
    Some(ByLang("Excellent! You have typed your first text. Word automatically handles line wrapping and basic layout for you.",
                "Excellent ! Vous avez tapé votre premier texte. Word gère automatiquement les retours à la ligne et la mise en page de base pour vous.")),
    Some("click"), Some("word-document"))

  const RibbonQuiz: Step := Quiz(
    3, ByLang("Knowledge Check", "Quiz"),
    [ Question("q1", ByLang("What is the top bar called?", "Comment s'appelle la barre supérieure ?"),
               [ QuizOption("a", ByLang(" The Ribbon", "Le Ruban"), true),
                 QuizOption("b", ByLang("The Shoelace", "Le Lacet"), false) ]) ])

  const WordGettingStarted: Lesson := Lesson(
    "word-getting-started",
    ByLang("Getting Started with Word", "Débuter avec Word"),
    ByLang("Create your first document and learn the interface.", "Créez votre premier document et découvrez l'interface."),
    ByLang("5-8 minutes", "5-8 minutes"),
    false,
    [WordWelcomeOverview, OpenBlankDocStep, TypeOnPageStep, RibbonQuiz])

  const FormattingOverview: Step := Overview(
    0,
    ByLang("Basic Formatting", "Mise en forme de base"),
    ByLang("Plain text is boring. Learn how to style your document using the Ribbon commands like Bold and Align.",
           "Le texte brut est ennuyeux. Apprenez à styliser votre document à l'aide des commandes du Ruban comme Gras et Aligner."),
    ListByLang(["Select text", "Apply Bold style", "Center align text"],
               ["Sélectionner du texte", "Appliquer le style Gras", "Centrer le texte"]))

  const FormattingBlankDocStep: Step := Interactive(
    1,
    ByLang("Click \"Blank document\" to start.", "Cliquez sur \"Document vierge\" pour commencer."),
    None, None,
    Some("click"), Some("word-blank-doc"))

  const FormattingTypeStep: Step := Interactive(
    2,
    ByLang("Click the document to type text.", "Cliquez sur le document pour taper du texte."),
    None, None,
    Some("click"), Some("word-document"))

  const SelectTextStep: Step := Interactive(
    3,
    ByLang("Click the text \"My First Document\" to select it.", "Cliquez sur le texte \"My First Document\" pour le sélectionner."),
    Some(ByLang("Before you can change how text looks, you must select it. Usually you drag your mouse, but here just click the text.",
                "Avant de pouvoir modifier l'apparence du texte, vous devez le sélectionner. Habituellement, vous faites glisser votre souris, mais ici, cliquez simplement sur le texte.")),
    Some(ByLang("Text selected! Note the blue highlight.", "Texte sélectionné ! Notez la surbrillance bleue.")),
    Some("click"), Some("word-text"))

  const BoldStep: Step := Interactive(
    4,
    ByLang("Click the \"B\" icon to make it Bold.", "Cliquez sur l'icône \"B\" pour le mettre en gras."),
    None,
    Some(ByLang("Bold moved! The text is now thicker and stands out.", "Mouvement audacieux ! Le texte est maintenant plus épais et ressort.")),
    Some("click"), Some("word-bold-btn"))

  const CenterStep: Step := Interactive(
    5,
    ByLang("Click the Center Align icon.", "Cliquez sur l'icône Aligner au centre."),
    None,
    Some(ByLang("Perfectly centered. Titles look best when centered.", "Parfaitement centré. Les titres sont mieux centrés.")),
    Some("click"), Some("word-align-center"))

  const FormattingQuiz: Step := Quiz(
    6, ByLang("Knowledge Check", "Quiz"),
    [ Question("q1", ByLang("What must you do before formatting text?", "Que devez-vous faire avant de formater du texte ?"),
               [ QuizOption("a", ByLang("Select it", "Le sélectionner"), true),
                 QuizOption("b", ByLang("Ask it nicely", "Lui demander gentiment"), false) ]) ])

  const WordFormatting: Lesson := Lesson(
    "word-formatting",
    ByLang("Basic Formatting", "Mise en forme de base"),
    ByLang("Make your text pop with Bold and Alignment.", "Mettez votre texte en valeur avec Gras et Alignement."),
    ByLang("5-10 minutes", "5-10 minutes"),
    true,
    [FormattingOverview, FormattingBlankDocStep, FormattingTypeStep, SelectTextStep, BoldStep, CenterStep, FormattingQuiz])

  const WordCourse: Course := Course(
    "word",
    Plain("Microsoft Word"),
    Plain("Master document creation, formatting, and layout tools."),
    "📄", "#2b579a", "29.99",
    [WordGettingStarted, WordFormatting])

  // ---- Courses without lessons yet ----

  const ExcelCourse: Course := Course(
    "excel", Plain("Microsoft Excel"), Plain("Learn spreadsheets, formulas, and data visualization."),
    "📊", "#217346", "29.99", [])

  const PowerPointCourse: Course := Course(
    "powerpoint", Plain("Microsoft PowerPoint"),
    Plain("Create stunning presentations with slides, animations, and transitions."),
    "📽️", "#d24726", "29.99", [])

  const Courses: seq<Course> := [Windows11, WordCourse, ExcelCourse, PowerPointCourse]

  const OfficeBundle: Package := Package(
    "office-bundle", "Bureautique Package",
    "Master the entire Microsoft Office suite: Word, Excel, and PowerPoint.",
    "69.99", ["word", "excel", "powerpoint"], "💼", "#2b579a")

  const Packages: seq<Package> := [OfficeBundle]

  // ---- Data facts ----

  /** Every quiz question of the catalog has exactly one correct option,
      and no two options of a question share an id. */
  lemma QuestionsHaveOneCorrectOption()
    ensures QuestionWellFormed(StartMenuQuestion) && QuestionWellFormed(CloseWindowQuestion)
    ensures forall q :: q in RibbonQuiz.questions ==> QuestionWellFormed(q)
    ensures forall q :: q in FormattingQuiz.questions ==> QuestionWellFormed(q)
    ensures NoDuplicates(OptionIds(StartMenuQuestion.options))
    ensures NoDuplicates(OptionIds(CloseWindowQuestion.options))
    ensures forall q :: q in RibbonQuiz.questions ==> NoDuplicates(OptionIds(q.options))
    ensures forall q :: q in FormattingQuiz.questions ==> NoDuplicates(OptionIds(q.options))
  {
    assert OptionIds(StartMenuQuestion.options) == ["a", "b", "c"];
    assert OptionIds(CloseWindowQuestion.options) == ["a", "b", "c"];
    assert OptionIds(RibbonQuiz.questions[0].options) == ["a", "b"];
    assert OptionIds(FormattingQuiz.questions[0].options) == ["a", "b"];
  }

  /** The managing-files and customizing-windows overviews write their
      objectives as bare arrays of four items; the overview screen resolves
      such a list to nothing, so in either language no objective shows. */
  lemma PlainObjectiveListsShowNothing(lang: string)
    ensures ManagingFiles.steps[0].objectives.PlainList?
    ensures |ManagingFiles.steps[0].objectives.items| == 4
    ensures ResolveList(ManagingFiles.steps[0].objectives, lang) == []
    ensures CustomizingWindows.steps[0].objectives.PlainList?
    ensures |CustomizingWindows.steps[0].objectives.items| == 4
    ensures ResolveList(CustomizingWindows.steps[0].objectives, lang) == []
  {
  }

  /** Every lesson of the catalog: steps open with an overview, are numbered
      in order, interactive steps expect a click on a named element, and
      each quiz question has exactly one correct option. */
  lemma LessonsWellFormed()
    ensures StepsWellFormed(NavigatingDesktop.steps)
    ensures StepsWellFormed(ManagingFiles.steps)
    ensures StepsWellFormed(CustomizingWindows.steps)
    ensures StepsWellFormed(WordGettingStarted.steps)
    ensures StepsWellFormed(WordFormatting.steps)
  {
    NavigatingDesktopWellFormed();
    WordGettingStartedWellFormed();
    WordFormattingWellFormed();
  }

  lemma NavigatingDesktopWellFormed()
    ensures StepsWellFormed(NavigatingDesktop.steps)
  {
    QuestionsHaveOneCorrectOption();
    var st := NavigatingDesktop.steps;
    assert StepWellFormed(st[0]) && StepWellFormed(st[1]) && StepWellFormed(st[2]);
    assert StepWellFormed(st[3]) && StepWellFormed(st[4]);
  }

  lemma WordGettingStartedWellFormed()
    ensures StepsWellFormed(WordGettingStarted.steps)
  {
    QuestionsHaveOneCorrectOption();
    var st := WordGettingStarted.steps;
    assert StepWellFormed(st[0]) && StepWellFormed(st[1]) && StepWellFormed(st[2]) && StepWellFormed(st[3]);
  }

  lemma WordFormattingWellFormed()
    ensures StepsWellFormed(WordFormatting.steps)
  {
    QuestionsHaveOneCorrectOption();
    var st := WordFormatting.steps;
    assert StepWellFormed(st[0]) && StepWellFormed(st[1]) && StepWellFormed(st[2]) && StepWellFormed(st[3]);
    assert StepWellFormed(st[4]) && StepWellFormed(st[5]) && StepWellFormed(st[6]);
  }

  /** The catalog as a whole: lesson ids unique per course, static lock
      flags matching the lock rule on an empty completion set, and every
      lesson well formed. */
  lemma CatalogWellFormed()
    ensures forall c :: c in Courses ==> CourseWellFormed(c)
  {
    LessonsWellFormed();
    assert LessonIds(Windows11.lessons) == ["navigating-desktop", "managing-files", "customizing-windows"];
    assert LessonIds(WordCourse.lessons) == ["word-getting-started", "word-formatting"];
  }

  /** The completed-lesson list on the client is global, so lesson ids are
      in fact unique across the whole catalog, not just per course. */
  lemma LessonIdsGloballyUnique()
    ensures NoDuplicates(LessonIds(Windows11.lessons + WordCourse.lessons))
  {
    assert LessonIds(Windows11.lessons + WordCourse.lessons)
      == ["navigating-desktop", "managing-files", "customizing-windows", "word-getting-started", "word-formatting"];
  }

  /** The package lists only courses that exist. */
  lemma PackageCoursesExist()
    ensures PackagesResolve(Packages, Courses)
  {
    assert CourseIds(Courses) == ["windows-11", "word", "excel", "powerpoint"];
  }
}
