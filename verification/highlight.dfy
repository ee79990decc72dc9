/** Hover feedback: pointing at a box tints the page element it stands for,
    leaving the box restores the background the element had when the box was made. */
module Highlight {
  import opened Colors
  import opened Dom
  import opened Representors

  /** `highlight(representor)`: the bound element's background becomes the highlight colour. */
  function Highlight(page: Element, rep: Representor): (r: Element)
    requires ValidPath(page, rep.element)
    ensures ValidPath(r, rep.element)
    ensures At(r, rep.element).background == HighlightColor
    ensures forall q :: ValidPath(page, q) && q != rep.element ==>
              ValidPath(r, q) && At(r, q).background == At(page, q).background
    ensures forall q :: ValidPath(page, q) ==>
              ValidPath(r, q) && At(r, q).name == At(page, q).name && |At(r, q).children| == |At(page, q).children|
  {
    var r := SetBackground(page, rep.element, HighlightColor);
    forall q | ValidPath(page, q)
      ensures ValidPath(r, q) && At(r, q).name == At(page, q).name && |At(r, q).children| == |At(page, q).children|
      ensures At(r, q).background == if q == rep.element then HighlightColor else At(page, q).background
    {
      SetBackgroundAt(page, rep.element, HighlightColor, q);
    }
    r
  }

  /** `unhighlight(representor)`: the bound element's background goes back to
      the one captured at construction, or is cleared when none was captured. */
  function Unhighlight(page: Element, rep: Representor): (r: Element)
    requires ValidPath(page, rep.element)
    ensures ValidPath(r, rep.element)
    ensures At(r, rep.element).background == rep.elementBg
    ensures forall q :: ValidPath(page, q) && q != rep.element ==>
              ValidPath(r, q) && At(r, q).background == At(page, q).background
    ensures forall q :: ValidPath(page, q) ==>
              ValidPath(r, q) && At(r, q).name == At(page, q).name && |At(r, q).children| == |At(page, q).children|
  {
    // The source tests the captured value for truthiness: a non-empty string
    // is written back, the empty one is replaced by "". Both cases write
    // `rep.elementBg`.
    var bg := if rep.elementBg != "" then rep.elementBg else "";
    var r := SetBackground(page, rep.element, bg);
    forall q | ValidPath(page, q)
      ensures ValidPath(r, q) && At(r, q).name == At(page, q).name && |At(r, q).children| == |At(page, q).children|
      ensures At(r, q).background == if q == rep.element then bg else At(page, q).background
    {
      SetBackgroundAt(page, rep.element, bg, q);
    }
    r
  }

  /** Highlighting and then unhighlighting gives back the page as it was,
      as long as the element still has the background captured for the box. */
  lemma RoundTrip(page: Element, rep: Representor)
    requires ValidPath(page, rep.element)
    requires At(page, rep.element).background == rep.elementBg
    ensures Unhighlight(Highlight(page, rep), rep) == page
  {
    SetBackgroundTwice(page, rep.element, HighlightColor, rep.elementBg);
    SetBackgroundSame(page, rep.element);
  }

  /** Unhighlighting twice is the same as unhighlighting once. */
  lemma UnhighlightIdempotent(page: Element, rep: Representor)
    requires ValidPath(page, rep.element)
    ensures Unhighlight(Unhighlight(page, rep), rep) == Unhighlight(page, rep)
  {
    SetBackgroundTwice(page, rep.element, rep.elementBg, rep.elementBg);
  }

  /** Highlighting twice is the same as highlighting once. */
  lemma HighlightIdempotent(page: Element, rep: Representor)
    requires ValidPath(page, rep.element)
    ensures Highlight(Highlight(page, rep), rep) == Highlight(page, rep)
  {
    SetBackgroundTwice(page, rep.element, HighlightColor, HighlightColor);
  }

  /** Unhighlighting after any number of hovers undoes the last highlight:
      unhighlight ignores what the element holds now. */
  lemma UnhighlightForgetsHighlight(page: Element, rep: Representor)
    requires ValidPath(page, rep.element)
    ensures Unhighlight(Highlight(page, rep), rep) == Unhighlight(page, rep)
  {
    SetBackgroundTwice(page, rep.element, HighlightColor, rep.elementBg);
  }

  /** What a box captures at construction is what unhighlight writes back:
      on the page the box was made from, unhighlighting changes nothing, and
      neither does hovering in and out. */
  lemma FreshBoxRestores(page: Element, color: Color, index: nat, element: Path, text: string)
    requires ValidPath(page, element)
    ensures Unhighlight(page, NewRepresentor(page, color, index, element, text)) == page
    ensures Unhighlight(Highlight(page, NewRepresentor(page, color, index, element, text)),
                        NewRepresentor(page, color, index, element, text)) == page
  {
    var rep := NewRepresentor(page, color, index, element, text);
    SetBackgroundSame(page, element);
    RoundTrip(page, rep);
  }
}
