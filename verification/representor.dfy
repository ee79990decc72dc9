/** A box of the schema: the record the `ElementRepresentor` constructor
    fills in for one page element. */
module Representors {
  import opened Colors
  import opened Dom

  /** `id` is the index in `elem#<index>`; `text` is the lower-cased tag name shown in the box; `element` refers to the page
      element the box stands for; `elementBg` is that element's background
      when the box was made; `children` are the ids of the child boxes in
      the order they were appended. */
  datatype Representor = Representor(
    id: nat,
    color: Color,
    text: string,
    element: Path,
    elementBg: string,
    children: seq<nat>)

  /** `new ElementRepresentor(color, index, pointedElement, text)`: a box with
      no children yet that remembers the element's current background. */
  function NewRepresentor(page: Element, color: Color, index: nat, element: Path, text: string): Representor
    requires ValidPath(page, element)
  {
    Representor(index, color, text, element, At(page, element).background, [])
  }
}
