/** The Windows 11 simulator (src/components/Simulators/Win11/Win11.js): a
    desktop whose Start menu and Settings window open and close on clicks,
    and which reports each click of its four live controls to the player. */
module Win11 {
  import opened Common
  import opened Highlight

  /** The two pieces of state: is the Start menu open, is Settings open. */
  datatype Desktop = Desktop(startMenuOpen: bool, settingsOpen: bool)

  const Closed: Desktop := Desktop(false, false)

  /** The controls with a click handler. */
  datatype Control = StartButton | TaskbarSettings | StartMenuSettings | CloseSettings

  /** The element id each control carries, which is what it glows for. */
  function ElementId(c: Control): string {
    match c
    case StartButton => "start-button"
    case TaskbarSettings => "settings-app-taskbar"
    case StartMenuSettings => "settings-app"
    case CloseSettings => "close-settings"
  }

  /** The taskbar is always there; the Settings tile lives in the Start
      menu and the close button in the Settings window. */
  predicate Shown(d: Desktop, c: Control) {
    match c
    case StartButton => true
    case TaskbarSettings => true
    case StartMenuSettings => d.startMenuOpen
    case CloseSettings => d.settingsOpen
  }

  datatype Outcome = Outcome(desktop: Desktop, emitted: Option<Emission>)

  /** A click on a control: its state change, then its `onAction` call. A
      control that is not on screen cannot be clicked. */
  function Press(d: Desktop, c: Control): (r: Outcome)
    ensures !Shown(d, c) ==> r == Outcome(d, None)
    ensures Shown(d, c) && c != TaskbarSettings ==> r.emitted == Some(ClickOn(ElementId(c)))
    ensures c == TaskbarSettings ==> r.emitted == Some(ClickOn("settings-app"))
    ensures c == StartButton ==>
              r.desktop == Desktop(!d.startMenuOpen, d.settingsOpen)
    ensures c == TaskbarSettings && d.settingsOpen ==> r.desktop == Desktop(d.startMenuOpen, false)
    ensures (c == TaskbarSettings && !d.settingsOpen) || (c == StartMenuSettings && Shown(d, c)) ==>
              r.desktop == Desktop(false, true)
    ensures c == CloseSettings && Shown(d, c) ==> r.desktop == Desktop(d.startMenuOpen, false)
  {
    match c
    case StartButton => Outcome(ToggleStart(d), Some(ClickOn("start-button")))
    case TaskbarSettings => Outcome(ToggleSettingsWindow(d), Some(ClickOn("settings-app")))
    case StartMenuSettings =>
      if d.startMenuOpen then Outcome(OpenSettings(d), Some(ClickOn("settings-app"))) else Outcome(d, None)
    case CloseSettings =>
      if d.settingsOpen then Outcome(d.(settingsOpen := false), Some(ClickOn("close-settings"))) else Outcome(d, None)
  }

  /** The menu flips; the Settings window is untouched. */
  function ToggleStart(d: Desktop): (r: Desktop)
    ensures r.startMenuOpen == !d.startMenuOpen && r.settingsOpen == d.settingsOpen
  {
    d.(startMenuOpen := !d.startMenuOpen)
  }

  /** Opening Settings also closes the Start menu. */
  function OpenSettings(d: Desktop): (r: Desktop)
    ensures r.settingsOpen && !r.startMenuOpen
  {
    Desktop(false, true)
  }

  /** Settings flips; opening it closes the menu, closing it leaves the
      menu as it was. */
  function ToggleSettingsWindow(d: Desktop): (r: Desktop)
    ensures r.settingsOpen == !d.settingsOpen
    ensures r.settingsOpen ==> !r.startMenuOpen
    ensures !r.settingsOpen ==> r.startMenuOpen == d.startMenuOpen
  {
    if d.settingsOpen then d.(settingsOpen := false) else OpenSettings(d)
  }

  /** A click sequence: the final desktop and the calls made, in order. */
  function PressAll(d: Desktop, cs: seq<Control>): (r: (Desktop, seq<Emission>))
    ensures |r.1| <= |cs|
    decreases |cs|
  {
    if cs == [] then (d, [])
    else
      var o := Press(d, cs[0]);
      var rest := PressAll(o.desktop, cs[1..]);
      (rest.0, (if o.emitted.Some? then [o.emitted.value] else []) + rest.1)
  }

  /** The Start button toggles: two clicks restore the desktop. */
  lemma StartButtonTwiceRestores(d: Desktop)
    ensures Press(Press(d, StartButton).desktop, StartButton).desktop == d
  {
  }

  /** Every click the desktop reports names an element that can glow for
      it, except the taskbar gear: it reports `settings-app`, the Start
      menu tile's id, so a step that targets `settings-app` is completed by
      it while the ring is drawn only on the tile. */
  lemma TaskbarGearReportsAnotherId(d: Desktop, h: Option<string>)
    ensures Press(d, TaskbarSettings).emitted == Some(ClickOn("settings-app"))
    ensures GlowOf(ElementId(TaskbarSettings), Some("settings-app"), h) == NoGlow
    ensures GlowOf(ElementId(StartMenuSettings), Some("settings-app"), h) != NoGlow
  {
  }

  /** Toggling Settings twice from a closed window leaves the Start menu
      closed even if it was open: the first click opens Settings and closes
      the menu, the second only closes Settings. */
  lemma TaskbarGearTwiceClosesStartMenu(d: Desktop)
    requires !d.settingsOpen
    ensures Press(Press(d, TaskbarSettings).desktop, TaskbarSettings).desktop == Closed
  {
  }

  /** The three clicks of the first lesson, from a closed desktop: open the
      menu, open Settings from it, close Settings. They report the lesson's
      three targets in order and leave the desktop closed. */
  lemma FirstLessonClicks()
    ensures PressAll(Closed, [StartButton, StartMenuSettings, CloseSettings])
            == (Closed, [ClickOn("start-button"), ClickOn("settings-app"), ClickOn("close-settings")])
  {
    var cs := [StartButton, StartMenuSettings, CloseSettings];
    var menu, settings := Desktop(true, false), Desktop(false, true);
    assert cs[1..] == [StartMenuSettings, CloseSettings];
    assert cs[1..][1..] == [CloseSettings];
    assert PressAll(settings, [CloseSettings]) == (Closed, [ClickOn("close-settings")]) by {
      assert [CloseSettings][1..] == [];
      assert PressAll(Closed, []) == (Closed, []);
      assert Press(settings, CloseSettings) == Outcome(Closed, Some(ClickOn("close-settings")));
      assert [ClickOn("close-settings")] + [] == [ClickOn("close-settings")];
    }
    assert Press(menu, StartMenuSettings) == Outcome(settings, Some(ClickOn("settings-app")));
    assert [ClickOn("settings-app")] + [ClickOn("close-settings")] == [ClickOn("settings-app"), ClickOn("close-settings")];
    assert PressAll(menu, cs[1..]) == (Closed, [ClickOn("settings-app"), ClickOn("close-settings")]);
    assert Press(Closed, StartButton) == Outcome(menu, Some(ClickOn("start-button")));
    assert [ClickOn("start-button")] + [ClickOn("settings-app"), ClickOn("close-settings")]
        == [ClickOn("start-button"), ClickOn("settings-app"), ClickOn("close-settings")];
  }

  /** The Settings tile cannot be reached without first opening the Start
      menu: on a desktop whose menu is closed, clicking where it would be
      does nothing. */
  lemma TileNeedsOpenMenu(d: Desktop)
    requires !d.startMenuOpen
    ensures Press(d, StartMenuSettings) == Outcome(d, None)
  {
  }
}
