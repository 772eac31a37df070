/** What the simulators share: the glow helper that marks the element the
    current step asks for (both src/components/Simulators/Win11/Win11.js
    and src/components/Simulators/Word/Word.js define the same one) and the
    `onAction(action, targetId)` call they make on a click. */
module Highlight {
  import opened Common

  /** No ring, the blue "action" ring, or the red "attention" ring. */
  datatype Glow = NoGlow | ActionGlow | AttentionGlow

  /** `getTargetClass(id, activeTargetId, highlightType)`: an element glows
      exactly when it is the active target; the ring is red for
      `'attention'` and blue for any other highlight type, including a
      missing one (the parameter defaults to `'action'`). */
  function GlowOf(id: string, activeTargetId: Option<string>, highlightType: Option<string>): (g: Glow)
    ensures g != NoGlow <==> activeTargetId == Some(id)
    ensures g == AttentionGlow <==> activeTargetId == Some(id) && highlightType == Some("attention")
  {
    if activeTargetId != Some(id) then NoGlow
    else if highlightType.GetOr("action") == "attention" then AttentionGlow
    else ActionGlow
  }

  /** At most one of two different elements glows. */
  lemma OneGlowAtATime(a: string, b: string, activeTargetId: Option<string>, h: Option<string>)
    requires a != b
    ensures GlowOf(a, activeTargetId, h) == NoGlow || GlowOf(b, activeTargetId, h) == NoGlow
  {
  }

  /** The call a simulator makes to the player. */
  datatype Emission = Emission(action: string, targetId: string)

  /** Every simulator control reports a click. */
  function ClickOn(targetId: string): (e: Emission)
    ensures e.action == "click" && e.targetId == targetId
  {
    Emission("click", targetId)
  }
}
