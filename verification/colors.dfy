/** Colour constants of the DOM schema: the reserved colour of the root
    box, the highlight colour, and the palette the colour picker rotates. */
module Colors {

  /** A CSS colour value, kept as the literal string the page sets. */
  type Color = string

  /** Colour of the box that represents `document.body`; never handed out by the picker. */
  const BodyRepresentorColor: Color := "black"

  /** Translucent red written into a page element while its box is hovered. */
  const HighlightColor: Color := "rgba(255, 0, 0, 0.4)"

  /** The palette, in the order the picker's queue starts from. */
  const Palette: seq<Color> := [
    "#e81123",
    "#ec008c",
    "#00188f",
    "#00bcf2",
    "#00b294",
    "#009e49",
    "#ff8c00",
    "#fff100",
    "#68217a"
  ]

  /** No two palette entries are the same colour. */
  ghost predicate Distinct(s: seq<Color>) {
    forall i, j :: 0 <= i < j < |s| ==> s[i] != s[j]
  }

  /** The palette has nine distinct colours, none of them the root colour. */
  lemma PaletteFacts()
    ensures |Palette| == 9
    ensures Distinct(Palette)
    ensures BodyRepresentorColor !in Palette
    ensures HighlightColor !in Palette
  {
  }
}
