# DOM schema: colour picker, schema walk and hover highlight

A Dafny model of the logic in `dom_schema.js`, the web component that draws
a page's element tree as nested coloured boxes ("representors"), one box per
element, and tints the page element whose box is under the mouse.

The model has three parts.

- The colour picker (`ColorPicker`, `Rotation`, `Colors`). `getColor` hands
  out one colour per tag name. The colours come from a queue that starts as
  the nine-colour palette. For a new tag, the queue is rotated until its front
  differs from both the parent's colour and the previously handed-out colour.
  That front colour is then fixed for the tag in a map.
- The schema walk (`Schema`, `Representors`, `Dom`, `ElementIds`).
  - `createSchema` walks the page's element tree with a stack.
  - It gives every element a box with the next counter value as its id, a
    colour, the lower-cased tag name and the element's background at that
    moment.
  - It appends each box to its parent box's children.
  - One running "preceding colour" is threaded through the whole walk.
- Hover feedback (`Highlight`). `highlight` sets the bound element's
  background to the highlight colour. `unhighlight` restores the background
  captured when the box was made.

Modelling choices:
- The page is a rose tree of `Element`s (tag name, background, children). An
  element is referred to by its path of child positions from the root.
- A box is a plain record. The box tree is a sequence indexed by box id, and a
  box's children are the ids of its child boxes.
- The picker is an immutable state, and `getColor` is a function returning
  the colour and the next state.
- `getColor`'s `while` loop is the recursive `Spin`. It terminates because
  the position of the first allowed colour shrinks by one per rotation.
- `createSchema` is a method with a sequence used as a stack.
  - Its outer loop is in `CreateSchema`, and one round of it (pop, then
    expand) is in `Round`.
  - The `children.forEach` loop is in `ExpandBox`, and one round of it is in
    `AddChild`.
  - Ghost outputs `order` and `made` record, for each round, the box popped
    and how many boxes existed then. `LastInFirstOut` states the stack
    discipline over this record.
  - The loop invariants are the predicates `OuterInv` and `InnerInv`; the
    `Step…` lemmas show they are kept.

## Model

| member | source | states |
|---|---|---|
| Colors.PaletteFacts | dom_schema.js:3-17 | the palette has nine distinct colours; neither the root colour "black" nor the highlight colour is among them |
| Rotation.ShiftOnce | dom_schema.js:54 | `push(shift())`: same length, the old front is now last, every other colour moves one place forward |
| Rotation.RotateIndex | dom_schema.js:54 | rotating k times puts at position i the colour that was at i+k, wrapping around: the cyclic order is preserved |
| Rotation.RotateMultiset | dom_schema.js:54 | rotating never adds, drops or duplicates a colour |
| Rotation.RotateTwice | dom_schema.js:54 | rotating a times and then b times is one rotation by a+b modulo the length |
| Rotation.RotationOfRotation | dom_schema.js:54 | a rotation of a rotation of the palette is again a rotation of the palette |
| ColorPicker.Init | dom_schema.js:40-43 | the fresh picker's queue is the palette, its map is empty, and it satisfies the picker invariant |
| ColorPicker.QueueColors | dom_schema.js:54 | the queue of a reachable picker holds a colour exactly when the palette does |
| ColorPicker.FirstAllowed | dom_schema.js:50-53 | returns the first queue position whose colour avoids both excluded colours: every earlier position holds an excluded colour |
| ColorPicker.FirstAllowedAfterShift | dom_schema.js:50-54 | rotating an excluded front to the back moves the first allowed colour one place nearer the front (the loop's variant) |
| ColorPicker.Spin | dom_schema.js:50-55 | the `while` loop ends with the queue rotated exactly up to the first allowed colour, which is then at the front |
| ColorPicker.ThreeColorsSuffice | dom_schema.js:50-53 | any queue holding three distinct colours has a colour that avoids two excluded colours |
| ColorPicker.ValidHasAllowed | dom_schema.js:50-55 | a reachable picker's queue always has an allowed colour, so the loop stops |
| ColorPicker.SpinOnValid | dom_schema.js:50-55 | on a reachable picker the loop makes fewer rotations than the queue length and leaves a rotation of the palette whose front is a palette colour |
| ColorPicker.GetColor | dom_schema.js:45-58 | for a known tag: the stored colour, with queue and map unchanged. For a new tag: a colour different from both excluded colours, taken from the front of the queue after it was rotated past exactly the excluded colours before the first allowed one, and the map gains exactly that tag. Either way the picker invariant is kept and the colour is a palette colour |
| ColorPicker.Sticky | dom_schema.js:46-48 | once a tag has a colour, a later call for it returns the same colour and state, whatever the other two arguments are |
| ColorPicker.NeverBodyColor | dom_schema.js:45-58 | no tag is ever given "black", neither by this call nor by any earlier one |
| Dom.ChildPath | dom_schema.js:120 | the i-th child of an element is reached by extending its path with i |
| Dom.LowerCase | dom_schema.js:132 | the label has the tag name's length, each character lower-cased, and no upper-case letter |
| Dom.SetBackgroundAt | dom_schema.js:142-153 | writing one element's background changes that background only: every element keeps its tag name and child count, every other element keeps its background |
| Dom.SetBackgroundTwice | dom_schema.js:142-153 | the second of two background writes to the same element wins |
| ElementIds.Decimal | dom_schema.js:68 | the decimal rendering of the index is a non-empty run of digits with no leading zero |
| ElementIds.ParseDecimalInverse | dom_schema.js:68 | reading the decimal rendering back gives the index |
| ElementIds.IndexOfElemId | dom_schema.js:68 | the index can be read back out of the id `elem#<index>` |
| ElementIds.ElemIdInjective | dom_schema.js:68 | two ids `elem#a` and `elem#b` are equal exactly when a = b |
| Schema.Attach | dom_schema.js:134 | `appendChild`: the new box is stored under the next id and appended to the end of its parent's children; no other box changes |
| Schema.CreateSchema | dom_schema.js:107-139 | the walk run from the constructor with the counter at 0. The counter ends equal to the number of boxes, which is the number of elements. Ids are exactly 0..n-1. Every element has exactly one box, and the root box is black. The j-th child box of a box stands for the j-th child element. Labels are lower-cased tag names and backgrounds are captured. All tags share one palette colour each, and the picker has fixed exactly the tags of the non-root boxes. The first box of each tag avoids its parent box's colour and the colour of the box made just before it anywhere in the walk. Every box is popped exactly once, and each round pops the newest box not yet popped (last in, first out), whose children then take the next ids |
| Schema.Round | dom_schema.js:118-136 | one round of the `while` loop pops the top of the stack. That box gets the next ids as its children, in child order. Exactly those ids are pushed, in that order, on the rest of the stack. No other box's children change, and the walk's invariant is kept |
| Schema.ExpandBox | dom_schema.js:119-136 | the `forEach` gives the popped box one child box per child element. The stack becomes the old stack with the new ids pushed in child order. No other box's children change |
| Schema.LogStep | dom_schema.js:118-136 | with the stack increasing and holding exactly the boxes not yet popped, one round keeps that so and extends the record: the popped box is the newest box not popped before |
| Schema.LastChildNext | dom_schema.js:118-136 | from the record alone: when a popped box has children, the very next round pops its last child. This is what a stack does and a queue would not |
| Schema.AddChild | dom_schema.js:121-135 | one child: the box gets the next counter value and is pushed on top of the stack; the running colour becomes its colour |
| Schema.PopWork | dom_schema.js:118-120 | `fringe.pop()` takes the most recently pushed box, which has no children yet; the rest of the stack stays a valid work list |
| Schema.InitialInv | dom_schema.js:108-116 | before the loop: one black root box with id 0 and no tags fixed, the stack holds the root, the running colour is the root's, and every other element is pending |
| Schema.StepIds | dom_schema.js:130 | each new box takes the next id, so ids stay exactly 0..n-1, and the running colour is the newest box's colour |
| Schema.StepDistinct | dom_schema.js:119-135 | the element a new box stands for had no box yet |
| Schema.StepChildLinks | dom_schema.js:121-135 | after appending, the j-th child box still stands for the j-th child element and siblings keep consecutive ids |
| Schema.StepPicker | dom_schema.js:122-126 | after each `getColor` the picker has fixed exactly the tags of the boxes made so far, each to its box's colour |
| Schema.NewBoxContrast | dom_schema.js:122-127 | a box that is the first of its tag has a colour different from its parent box's and from the previous box's |
| Schema.StepContrast | dom_schema.js:122-127 | adding a box keeps that contrast property for every earlier box |
| Schema.StepPending | dom_schema.js:118-136 | elements already boxed plus elements still below the stack always add up to the page size, so the outer loop terminates |
| Schema.Numbered | dom_schema.js:130-134 | a box's children carry consecutive ids ending at the newest box |
| Schema.Covered | dom_schema.js:118-137 | once every box is expanded, every element of the page has a box |
| Schema.BoxColors | dom_schema.js:122-127 | every non-root box has a palette colour |
| Schema.FinalFacts | dom_schema.js:118-139 | when the stack is empty, every box is expanded, every element is covered, and boxes of equal tag have equal colour |
| Schema.DomIdsUnique | dom_schema.js:156-157 | with ids exactly 0..n-1, looking up `elem#i` for each i below the final counter finds exactly one box, box i |
| Highlight.Highlight | dom_schema.js:142-144 | the bound element's background becomes the highlight colour. Every other element's background is unchanged, and every element keeps its tag name and number of children |
| Highlight.Unhighlight | dom_schema.js:146-153 | the bound element's background becomes the one captured at construction, which is "" when none was captured. Every other element's background is unchanged, and every element keeps its tag name and number of children |
| Highlight.RoundTrip | dom_schema.js:142-153 | highlight followed by unhighlight gives back the page exactly, while the element still has its construction-time background |
| Highlight.UnhighlightIdempotent | dom_schema.js:146-153 | unhighlighting twice is the same as unhighlighting once |
| Highlight.HighlightIdempotent | dom_schema.js:142-144 | highlighting twice is the same as highlighting once |
| Highlight.UnhighlightForgetsHighlight | dom_schema.js:142-153 | unhighlight after a highlight gives the same page as unhighlight alone |
| Highlight.FreshBoxRestores | dom_schema.js:146-153 | the background a new box captures (line 72) is the one unhighlight writes back: on the page the box was made from, unhighlight, and also highlight followed by unhighlight, leave the page unchanged |

## Left out

- Shadow DOM, the injected style sheet, the container `div` and custom-element registration (dom_schema.js:18-33, 93-101, 181-186): browser plumbing with no logic.
- `className` (dom_schema.js:71): a constant style hook with no logic.
- `connectedCallback` and `disconnectedCallback` (dom_schema.js:155-178): these only wire event listeners. Only the id lookup they rely on is modelled, as `Schema.DomIdsUnique`. The removal code never runs because `this.schema` is never assigned. Its closures would not match the registered ones anyway.
- CSS colour serialisation: the parent colour passed to `getColor` is read back from `style.background` (dom_schema.js:124). A browser returns that value in normalised form (such as `rgb(...)`), not as the hex literal in the queue. The model passes the parent box's colour as it was assigned. So in a browser the test `colorQueue[0] === parentElemColor` (dom_schema.js:51) never holds for a palette colour. The parent half of `Contrast` and of `Avoids` is therefore a property of the model only.
- `toLocaleLowerCase` (dom_schema.js:112, 132): locale rules are not modelled; `Dom.LowerCase` lower-cases ASCII letters only.
- `HTMLDivElement` and `HTMLElement` inheritance: a box is a plain record.
- A missing `document.body`: the model assumes the page has a root element. When `document.body` is null, dom_schema.js:111-112 throws a TypeError before any box is made, and `CreateSchema` takes an `Element`, so that case is not expressed.
- The live DOM: the page is a snapshot tree. An element's background is the single field that `highlight` and `unhighlight` write, so the model does not distinguish `style.background` from `style.backgroundColor`.
- The doc comment on `createSchema` (dom_schema.js:105) says BFS, but the code pops from the end of `fringe`, i.e. a stack. The model follows the code.
- The counter `elementsNumber` (dom_schema.js:92, 110, 130) is a JavaScript number, a double that counts exactly only up to 2^53. The model uses an unbounded `nat`.
- ElementIds.Decimal: renders every index in plain digits. JavaScript writes indexes from 10^21 on in exponent form (`1e+21`), so the model matches the source only below 10^21.
- Highlight.RoundTrip: needs the element to still have the background captured for the box. If the page changed the background after the box was made, unhighlight restores the old captured value, not the current one.
- ColorPicker.GetColor: requires the picker invariant: the queue is a rotation of the palette and every fixed colour is in the queue. The constructor establishes it and every call keeps it, so it holds of every picker the program can build. States the program cannot reach (such as an empty queue) are not modelled.
