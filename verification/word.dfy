/** The Word simulator (src/components/Simulators/Word/Word.js): a landing
    page with a "Blank document" tile, and an editor whose page fills in a
    fixed sentence when it is the step's target, whose sentence can be
    selected, and whose ribbon sets bold and alignment. */
module WordSimulator {
  import opened Common
  import opened Highlight

  datatype View = Landing | Editor

  /** The simulator's five pieces of state. */
  datatype Doc = Doc(view: View, content: string, isBold: bool, alignment: string, selectionActive: bool)

  const Blank: Doc := Doc(Landing, "", false, "left", false)

  /** The sentence a click on the page "types". */
  const TypedText: string := "My First Document"

  /** The four alignment buttons, in ribbon order. */
  const Alignments: seq<string> := ["left", "center", "right", "justify"]

  /** The controls with a click handler. */
  datatype Control = BlankDocument | BoldButton | AlignButton(align: string) | Page | Sentence

  /** The element id each control carries. */
  function ElementId(c: Control): string {
    match c
    case BlankDocument => "word-blank-doc"
    case BoldButton => "word-bold-btn"
    case AlignButton(a) => "word-align-" + a
    case Page => "word-document"
    case Sentence => "word-text"
  }

  /** The landing page shows only the tile; the editor shows the ribbon and
      the page, and the sentence once there is content. */
  predicate Shown(d: Doc, c: Control) {
    match c
    case BlankDocument => d.view == Landing
    case BoldButton => d.view == Editor
    case AlignButton(a) => d.view == Editor && a in Alignments
    case Page => d.view == Editor
    case Sentence => d.view == Editor && d.content != ""
  }

  datatype Outcome = Outcome(doc: Doc, emitted: Option<Emission>)

  /** A click on a control, given the current step's target. The page acts
      only while it is the target; bold toggles only with a selection but
      reports the click either way; a click on the sentence does not reach
      the page behind it. */
  function Press(d: Doc, c: Control, activeTargetId: Option<string>): (r: Outcome)
    ensures !Shown(d, c) ==> r == Outcome(d, None)
    ensures Shown(d, c) && c != Page ==> r.emitted == Some(ClickOn(ElementId(c)))
    ensures Shown(d, c) && c == Page ==>
              (r.emitted.Some? <==> activeTargetId == Some("word-document"))
              && (r.emitted.Some? ==> r.emitted.value == ClickOn(ElementId(c)))
    ensures c == BlankDocument && Shown(d, c) ==> r.doc == d.(view := Editor)
    ensures c == BoldButton && Shown(d, c) ==> r.doc == d.(isBold := d.isBold != d.selectionActive)
    ensures c.AlignButton? && Shown(d, c) ==> r.doc == d.(alignment := c.align)
    ensures c == Page && Shown(d, c) ==>
              r.doc == if activeTargetId == Some("word-document") then d.(content := TypedText) else d
    ensures c == Sentence && Shown(d, c) ==> r.doc == d.(selectionActive := true)
  {
    if !Shown(d, c) then Outcome(d, None)
    else
      match c
      case BlankDocument => Outcome(d.(view := Editor), Some(ClickOn("word-blank-doc")))
      case BoldButton =>
        var bold := if d.selectionActive then !d.isBold else d.isBold;
        Outcome(d.(isBold := bold), Some(ClickOn("word-bold-btn")))
      case AlignButton(a) => Outcome(d.(alignment := a), Some(ClickOn("word-align-" + a)))
      case Page =>
        if activeTargetId == Some("word-document") then
          Outcome(d.(content := TypedText), Some(ClickOn("word-document")))
        else Outcome(d, None)
      case Sentence => Outcome(d.(selectionActive := true), Some(ClickOn("word-text")))
  }

  /** What every reachable document satisfies: the landing page is the
      blank state; the content is empty or the typed sentence; a selection
      needs content; bold needs a selection; the alignment is a ribbon
      value. */
  predicate Valid(d: Doc) {
    && (d.view == Landing ==> d == Blank)
    && (d.content == "" || d.content == TypedText)
    && (d.selectionActive ==> d.content != "")
    && (d.isBold ==> d.selectionActive)
    && d.alignment in Alignments
  }

  /** Every click keeps a document valid. */
  lemma PressKeepsValid(d: Doc, c: Control, activeTargetId: Option<string>)
    requires Valid(d)
    ensures Valid(Press(d, c, activeTargetId).doc)
  {
  }

  lemma BlankIsValid()
    ensures Valid(Blank)
  {
  }

  /** Without a selection the bold button changes nothing, yet it still
      reports its click, so a step targeting it is completed. */
  lemma BoldWithoutSelection(d: Doc, t: Option<string>)
    requires d.view == Editor && !d.selectionActive
    ensures Press(d, BoldButton, t) == Outcome(d, Some(ClickOn("word-bold-btn")))
  {
  }

  /** With a selection, two clicks on bold restore the document. */
  lemma BoldTwiceRestores(d: Doc, t: Option<string>)
    requires d.view == Editor && d.selectionActive
    ensures Press(Press(d, BoldButton, t).doc, BoldButton, t).doc == d
  {
  }

  /** The page ignores clicks unless it is the current target. */
  lemma PageIgnoredOffTarget(d: Doc, t: Option<string>)
    requires t != Some("word-document")
    ensures Press(d, Page, t) == Outcome(d, None)
  {
  }

  /** The five clicks of the formatting lesson, each made while its own
      element is the step's target: open a blank document, type, select,
      bold, center. Each reports exactly the target, and together they leave
      the sentence selected, bold and centered. */
  lemma FormattingLessonClicks()
    ensures var o1 := Press(Blank, BlankDocument, Some("word-blank-doc"));
            var o2 := Press(o1.doc, Page, Some("word-document"));
            var o3 := Press(o2.doc, Sentence, Some("word-text"));
            var o4 := Press(o3.doc, BoldButton, Some("word-bold-btn"));
            var o5 := Press(o4.doc, AlignButton("center"), Some("word-align-center"));
            && o1.emitted == Some(ClickOn("word-blank-doc"))
            && o2.emitted == Some(ClickOn("word-document"))
            && o3.emitted == Some(ClickOn("word-text"))
            && o4.emitted == Some(ClickOn("word-bold-btn"))
            && o5.emitted == Some(ClickOn("word-align-center"))
            && o5.doc == Doc(Editor, TypedText, true, "center", true)
  {
    assert "word-align-" + "center" == "word-align-center";
  }

  /** Each alignment button reports its own id, and the ids are distinct,
      so one step can target exactly one alignment. */
  lemma AlignIdsDistinct(a: string, b: string)
    requires a != b
    ensures ElementId(AlignButton(a)) != ElementId(AlignButton(b))
  {
    var p := "word-align-";
    assert ElementId(AlignButton(a))[|p|..] == a;
    assert ElementId(AlignButton(b))[|p|..] == b;
  }
}
