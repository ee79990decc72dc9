/** Building the schema: a walk over the page that makes one box per
    element, with a stack as the work list, ids from a running counter, a
    colour per box from the picker and a single running "preceding colour".
    The box tree is kept as a sequence indexed by id; a box's children are
    the ids of its child boxes in the order they were appended. */
module Schema {
  import opened Colors
  import opened ColorPicker
  import opened Dom
  import opened ElementIds
  import opened Representors

  /* ---------- facts about a (partial) list of boxes ---------- */

  /** Every box refers to an element of the page. */
  ghost predicate PathsOk(page: Element, reps: seq<Representor>) {
    forall i :: 0 <= i < |reps| ==> ValidPath(page, reps[i].element)
  }

  /** Tag name (`nodeName`) of the element box `i` stands for. */
  ghost function Tag(page: Element, reps: seq<Representor>, i: nat): string
    requires PathsOk(page, reps) && i < |reps|
  {
    At(page, reps[i].element).name
  }

  /** Box `i` is the first non-root box of its tag, in id (creation) order. */
  ghost predicate FirstOfTag(page: Element, reps: seq<Representor>, i: nat)
    requires PathsOk(page, reps) && i < |reps|
  {
    forall k :: 0 < k < i ==> Tag(page, reps, k) != Tag(page, reps, i)
  }

  /** Box 0 stands for the root and has the reserved colour. */
  ghost predicate RootOk(reps: seq<Representor>) {
    |reps| > 0 && reps[0].element == [] && reps[0].color == BodyRepresentorColor
  }

  /** Box ids are their positions: exactly 0 .. |reps| - 1. */
  ghost predicate IdsDense(reps: seq<Representor>) {
    forall i :: 0 <= i < |reps| ==> reps[i].id == i
  }

  /** No element has two boxes. */
  ghost predicate PathsDistinct(reps: seq<Representor>) {
    forall i, j :: 0 <= i < j < |reps| ==> reps[i].element != reps[j].element
  }

  /** Every box shows its element's lower-cased tag and remembers its background. */
  ghost predicate FieldsOk(page: Element, reps: seq<Representor>)
    requires PathsOk(page, reps)
  {
    forall i :: 0 <= i < |reps| ==>
      && reps[i].text == LowerCase(At(page, reps[i].element).name)
      && reps[i].elementBg == At(page, reps[i].element).background
  }

  /** The `j`-th child box of a box stands for the `j`-th child element of
      its element, was made after its parent, and siblings have consecutive ids. */
  ghost predicate ChildLinks(reps: seq<Representor>) {
    forall i, j :: 0 <= i < |reps| && 0 <= j < |reps[i].children| ==>
      && i < reps[i].children[j] < |reps|
      && reps[reps[i].children[j]].element == reps[i].element + [j]
      && reps[i].children[j] == reps[i].children[0] + j
  }

  /** `parents[m]` is the box whose element is the parent of box `m`'s
      element, made before `m`, and it lists `m` at `m`'s child position. */
  ghost predicate ParentLinks(reps: seq<Representor>, parents: seq<nat>) {
    && |parents| == |reps|
    && forall m {:trigger parents[m]} :: 0 < m < |reps| ==>
         && reps[m].element != []
         && parents[m] < m
         && IsParentOf(reps, parents[m], m)
  }

  /** Box `q` stands for the parent element of box `m` and lists `m` as its child. */
  ghost predicate IsParentOf(reps: seq<Representor>, q: nat, m: nat)
    requires q < |reps| && m < |reps| && reps[m].element != []
  {
    var p := reps[m].element;
    && reps[q].element == p[..|p| - 1]
    && p[|p| - 1] < |reps[q].children|
    && reps[q].children[p[|p| - 1]] == m
  }

  /** Every box but the root has a palette colour. */
  ghost predicate ColorsOk(reps: seq<Representor>) {
    forall m :: 0 < m < |reps| ==> reps[m].color in Palette
  }

  /** Tags of the non-root boxes with ids below `n`. */
  ghost function TagsBelow(page: Element, reps: seq<Representor>, n: nat): set<string>
    requires PathsOk(page, reps) && n <= |reps|
  {
    if n <= 1 then {} else TagsBelow(page, reps, n - 1) + {Tag(page, reps, n - 1)}
  }

  /** A tag is among `TagsBelow(n)` exactly when some non-root box below `n` has it. */
  lemma {:induction false} TagsBelowMember(page: Element, reps: seq<Representor>, n: nat, t: string)
    requires PathsOk(page, reps) && n <= |reps|
    ensures t in TagsBelow(page, reps, n) <==> exists m :: 0 < m < n && Tag(page, reps, m) == t
  {
    if n > 1 {
      TagsBelowMember(page, reps, n - 1, t);
    }
  }

  /** `TagsBelow(n)` only looks at the first `n` boxes' elements. */
  lemma {:induction false} TagsBelowFrame(page: Element, reps: seq<Representor>, reps': seq<Representor>, n: nat)
    requires PathsOk(page, reps) && PathsOk(page, reps')
    requires n <= |reps| && n <= |reps'|
    requires forall i :: 0 <= i < n ==> reps'[i].element == reps[i].element
    ensures TagsBelow(page, reps', n) == TagsBelow(page, reps, n)
  {
    if n > 1 {
      TagsBelowFrame(page, reps, reps', n - 1);
    }
  }

  /** The picker has fixed exactly the tags of the non-root boxes, each to its box's colour. */
  ghost predicate PickerOk(page: Element, reps: seq<Representor>, picker: Picker)
    requires PathsOk(page, reps)
  {
    && Valid(picker)
    && picker.tagColors.Keys == TagsBelow(page, reps, |reps|)
    && (forall m :: 0 < m < |reps| ==>
          Tag(page, reps, m) in picker.tagColors && picker.tagColors[Tag(page, reps, m)] == reps[m].color)
  }

  /** The first box of each tag differs in colour from its parent box and
      from the box made just before it, wherever in the tree that one is. */
  ghost predicate Contrast(page: Element, reps: seq<Representor>)
    requires PathsOk(page, reps)
  {
    forall i, j {:trigger reps[i].children[j]} ::
      && 0 <= i < |reps| && 0 <= j < |reps[i].children|
      && 0 < reps[i].children[j] < |reps|
      && FirstOfTag(page, reps, reps[i].children[j])
      ==> Avoids(reps[reps[i].children[j]].color, reps[i].color, reps[reps[i].children[j] - 1].color)
  }

  /** Everything that holds of the boxes made so far; `preceding` is the running colour. */
  ghost predicate Core(page: Element, reps: seq<Representor>, parents: seq<nat>, picker: Picker, preceding: Color) {
    && RootOk(reps)
    && IdsDense(reps)
    && PathsOk(page, reps)
    && PathsDistinct(reps)
    && FieldsOk(page, reps)
    && ChildLinks(reps)
    && ParentLinks(reps, parents)
    && PickerOk(page, reps, picker)
    && Contrast(page, reps)
    && preceding == reps[|reps| - 1].color
  }

  /** Box `i` has one child box per child element. */
  ghost predicate Expanded(page: Element, reps: seq<Representor>, i: nat)
    requires PathsOk(page, reps) && i < |reps|
  {
    |reps[i].children| == |At(page, reps[i].element).children|
  }

  /** The stack holds distinct boxes with no children yet; every other box
      except `cur` (the one being expanded, or -1) has all its children. */
  ghost predicate Worklist(page: Element, reps: seq<Representor>, fringe: seq<nat>, cur: int)
    requires PathsOk(page, reps)
  {
    && (forall a :: 0 <= a < |fringe| ==>
          fringe[a] < |reps| && fringe[a] != cur && reps[fringe[a]].children == [])
    && (forall a, b :: 0 <= a < b < |fringe| ==> fringe[a] != fringe[b])
    && (forall i :: 0 <= i < |reps| && i != cur && i !in fringe ==> Expanded(page, reps, i))
  }

  /** Number of elements below the boxes on the stack, still to be given boxes. */
  ghost function Pending(page: Element, reps: seq<Representor>, fringe: seq<nat>): nat
    requires PathsOk(page, reps)
    requires forall a :: 0 <= a < |fringe| ==> fringe[a] < |reps|
  {
    if fringe == [] then 0
    else
      Pending(page, reps, fringe[..|fringe| - 1])
      + SizeSum(At(page, reps[fringe[|fringe| - 1]].element).children)
  }

  /** Invariant of the outer loop. */
  ghost predicate OuterInv(page: Element, reps: seq<Representor>, parents: seq<nat>, fringe: seq<nat>, picker: Picker, preceding: Color) {
    && Core(page, reps, parents, picker, preceding)
    && Worklist(page, reps, fringe, -1)
    && |reps| + Pending(page, reps, fringe) == Size(page)
  }

  /** Invariant of the inner loop over the children of box `cur`, `j` of them done. */
  ghost predicate InnerInv(page: Element, reps: seq<Representor>, parents: seq<nat>, fringe: seq<nat>, picker: Picker, preceding: Color,
                           cur: nat, j: nat) {
    && Core(page, reps, parents, picker, preceding)
    && cur < |reps|
    && Worklist(page, reps, fringe, cur)
    && |reps[cur].children| == j
    && j <= |At(page, reps[cur].element).children|
    && (j > 0 ==> reps[cur].children[j - 1] == |reps| - 1)
    && |reps| + Pending(page, reps, fringe) + SizeSum(At(page, reps[cur].element).children[j..]) == Size(page)
  }

  /** `reps'` is `reps` with `child` stored under the next id and appended to
      the children of box `cur`; no other box changes. */
  ghost predicate Grows(reps: seq<Representor>, reps': seq<Representor>, cur: nat, child: Representor) {
    && cur < |reps|
    && |reps'| == |reps| + 1
    && reps'[|reps|] == child
    && reps'[cur].children == reps[cur].children + [child.id]
    && forall i :: 0 <= i < |reps| ==>
         && reps'[i].element == reps[i].element
         && reps'[i].color == reps[i].color
         && reps'[i].text == reps[i].text
         && reps'[i].elementBg == reps[i].elementBg
         && reps'[i].id == reps[i].id
         && (i != cur ==> reps'[i].children == reps[i].children)
  }

  /** `g` is `f` with the ids `n`, ..., `n + m - 1` pushed on top, in that order. */
  ghost predicate PushedOnto(f: seq<nat>, g: seq<nat>, n: nat, m: nat) {
    && |g| == |f| + m
    && (forall a :: 0 <= a < |f| ==> g[a] == f[a])
    && (forall a :: |f| <= a < |g| ==> g[a] == n + (a - |f|))
  }

  /** Pushing the next id extends the run of pushed ids by one. */
  lemma PushedOntoNext(f: seq<nat>, g: seq<nat>, n: nat, m: nat, x: nat)
    requires PushedOnto(f, g, n, m) && x == n + m
    ensures PushedOnto(f, g + [x], n, m + 1)
  {
  }

  /** Every box but `cur` keeps its children. */
  ghost predicate ChildrenKept(reps: seq<Representor>, reps': seq<Representor>, cur: nat) {
    && |reps| <= |reps'|
    && forall i :: 0 <= i < |reps| && i != cur ==> reps'[i].children == reps[i].children
  }

  lemma ChildrenKeptTrans(r0: seq<Representor>, r1: seq<Representor>, r2: seq<Representor>, cur: nat)
    requires ChildrenKept(r0, r1, cur) && ChildrenKept(r1, r2, cur)
    ensures ChildrenKept(r0, r2, cur)
  {
  }

  /** `currentRepresentor.appendChild(child)`, with the new box stored under its id. */
  function Attach(reps: seq<Representor>, cur: nat, child: Representor): (r: seq<Representor>)
    requires cur < |reps|
    ensures Grows(reps, r, cur, child)
  {
    reps[cur := reps[cur].(children := reps[cur].children + [child.id])] + [child]
  }

  /* ---------- the walk ---------- */

  /** `createSchema()` run from the `DomSchema` constructor (counter at 0,
      fresh picker): returns the boxes indexed by id, the final counter
      `elementsNumber` and the picker's final state. The ghost `order` and
      `made` record the rounds of the `while` loop: the box popped in each
      round and the number of boxes that existed when it was popped. */
  method CreateSchema(page: Element)
    returns (reps: seq<Representor>, elementsNumber: nat, picker: Picker, ghost order: seq<nat>, ghost made: seq<nat>)
    ensures elementsNumber == |reps| == Size(page)
    ensures IdsDense(reps)
    ensures PathsOk(page, reps)
    ensures PathsDistinct(reps)
    ensures forall p :: ValidPath(page, p) ==> exists i :: 0 <= i < |reps| && reps[i].element == p
    ensures RootOk(reps)
    ensures forall i :: 0 <= i < |reps| ==> Expanded(page, reps, i)
    ensures ChildLinks(reps)
    ensures FieldsOk(page, reps)
    ensures ColorsOk(reps)
    ensures PickerOk(page, reps, picker)
    ensures forall i, k :: 0 < i < |reps| && 0 < k < |reps| && Tag(page, reps, i) == Tag(page, reps, k) ==>
              reps[i].color == reps[k].color
    ensures Contrast(page, reps)
    ensures LastInFirstOut(reps, order, made) && |order| == |reps|
  {
    elementsNumber := 0;
    picker := Init();
    var schema := NewRepresentor(page, BodyRepresentorColor, elementsNumber, [], LowerCase(page.name));
    elementsNumber := elementsNumber + 1;
    reps := [schema];
    ghost var parents: seq<nat> := [0];
    var fringe: seq<nat> := [0];
    var preElemColor := BodyRepresentorColor;
    InitialInv(page, schema, picker);
    order, made := [], [];

    while |fringe| != 0
      invariant OuterInv(page, reps, parents, fringe, picker, preElemColor)
      invariant elementsNumber == |reps|
      invariant StackLog(reps, fringe, order, made)
      decreases Size(page) - |reps| + |fringe|
    {
      ghost var reps0, fringe0, n0: nat := reps, fringe, |reps|;
      var cur;
      reps, parents, fringe, picker, preElemColor, elementsNumber, cur :=
        Round(page, reps, parents, fringe, picker, preElemColor, elementsNumber);
      LogStep(reps0, reps, fringe0, fringe0[..|fringe0| - 1], fringe, order, made, cur);
      order, made := order + [cur], made + [n0];
    }
    FinalFacts(page, reps, parents, picker, preElemColor);
  }

  /** One round of the `while` loop: pop the top box `cur` off the stack and
      expand it. Its children get the next ids, in child order, and are
      pushed in that order; no other box changes its children. */
  method Round(page: Element, reps: seq<Representor>, ghost parents: seq<nat>, fringe: seq<nat>,
               picker: Picker, preElemColor: Color, elementsNumber: nat)
    returns (reps': seq<Representor>, ghost parents': seq<nat>, fringe': seq<nat>,
             picker': Picker, preElemColor': Color, elementsNumber': nat, cur: nat)
    requires OuterInv(page, reps, parents, fringe, picker, preElemColor)
    requires elementsNumber == |reps| && |fringe| > 0
    ensures cur == fringe[|fringe| - 1]
    ensures OuterInv(page, reps', parents', fringe', picker', preElemColor')
    ensures elementsNumber' == |reps'|
    ensures cur < |reps'| && ChildrenKept(reps, reps', cur)
    ensures |reps'[cur].children| == |reps'| - |reps|
    ensures forall k :: 0 <= k < |reps'[cur].children| ==> reps'[cur].children[k] == |reps| + k
    ensures PushedOnto(fringe[..|fringe| - 1], fringe', |reps|, |reps'| - |reps|)
  {
    cur := fringe[|fringe| - 1];
    PopInv(page, reps, parents, fringe, picker, preElemColor);
    var rest := fringe[..|fringe| - 1];
    reps', parents', fringe', picker', preElemColor', elementsNumber' :=
      ExpandBox(page, reps, parents, rest, picker, preElemColor, cur, elementsNumber);
    EndInv(page, reps', parents', fringe', picker', preElemColor', cur, |reps|);
  }

  /** The `children.forEach` loop over the element of box `cur`, popped
      from the stack: each child gets a colour, a box with the next id, a
      place at the end of `cur`'s children and a place on top of the stack. */
  method ExpandBox(page: Element, reps: seq<Representor>, ghost parents: seq<nat>, fringe: seq<nat>,
                   picker: Picker, preElemColor: Color, cur: nat, elementsNumber: nat)
    returns (reps': seq<Representor>, ghost parents': seq<nat>, fringe': seq<nat>,
             picker': Picker, preElemColor': Color, elementsNumber': nat)
    requires cur < |reps| && elementsNumber == |reps|
    requires InnerInv(page, reps, parents, fringe, picker, preElemColor, cur, 0)
    ensures cur < |reps'| && reps'[cur].element == reps[cur].element
    ensures elementsNumber' == |reps'| == |reps| + |At(page, reps[cur].element).children|
    ensures InnerInv(page, reps', parents', fringe', picker', preElemColor', cur, |reps'| - |reps|)
    ensures ChildrenKept(reps, reps', cur)
    ensures PushedOnto(fringe, fringe', |reps|, |reps'| - |reps|)
  {
    reps', parents', fringe', picker', preElemColor', elementsNumber' :=
      reps, parents, fringe, picker, preElemColor, elementsNumber;
    var children := At(page, reps[cur].element).children;
    var j: nat := 0;
    while j < |children|
      invariant j <= |children|
      invariant elementsNumber' == |reps'| == |reps| + j
      invariant cur < |reps'| && reps'[cur].element == reps[cur].element
      invariant InnerInv(page, reps', parents', fringe', picker', preElemColor', cur, j)
      invariant ChildrenKept(reps, reps', cur)
      invariant PushedOnto(fringe, fringe', |reps|, j)
    {
      ghost var before, pushed := reps', fringe';
      reps', parents', fringe', picker', preElemColor', elementsNumber' :=
        AddChild(page, reps', parents', fringe', picker', preElemColor', cur, j, elementsNumber');
      ChildrenKeptTrans(reps, before, reps', cur);
      PushedOntoNext(fringe, pushed, |reps|, j, |before|);
      j := j + 1;
    }
  }

  /** One round of `children.forEach`: child `j` of the element of box
      `cur` gets its colour, a box with the next id, its place at the end of
      `cur`'s children and on top of the stack, and becomes the running colour. */
  method AddChild(page: Element, reps: seq<Representor>, ghost parents: seq<nat>, fringe: seq<nat>,
                  picker: Picker, preElemColor: Color, cur: nat, j: nat, elementsNumber: nat)
    returns (reps': seq<Representor>, ghost parents': seq<nat>, fringe': seq<nat>,
             picker': Picker, preElemColor': Color, elementsNumber': nat)
    requires InnerInv(page, reps, parents, fringe, picker, preElemColor, cur, j)
    requires j < |At(page, reps[cur].element).children| && elementsNumber == |reps|
    ensures InnerInv(page, reps', parents', fringe', picker', preElemColor', cur, j + 1)
    ensures elementsNumber' == |reps'| == |reps| + 1
    ensures reps'[cur].element == reps[cur].element
    ensures fringe' == fringe + [|reps|]
    ensures ChildrenKept(reps, reps', cur)
  {
    var c := At(page, reps[cur].element).children[j];
    var pick := GetColor(picker, c.name, reps[cur].color, preElemColor);
    ChildPath(page, reps[cur].element, j);
    var child := NewRepresentor(page, pick.color, elementsNumber, reps[cur].element + [j], LowerCase(c.name));
    StepInv(page, reps, parents, fringe, picker, preElemColor, cur, j, pick, child);
    picker' := pick.picker;
    preElemColor' := pick.color;
    elementsNumber' := elementsNumber + 1;
    reps' := Attach(reps, cur, child);
    parents' := parents + [cur];
    fringe' := fringe + [child.id];
  }

  /** The children of a box are numbered consecutively, the last one being the newest box. */
  lemma Numbered(reps: seq<Representor>, cur: nat, n0: nat)
    requires ChildLinks(reps) && cur < |reps|
    requires |reps[cur].children| + n0 == |reps|
    requires |reps[cur].children| > 0 ==> reps[cur].children[|reps[cur].children| - 1] == |reps| - 1
    ensures forall k :: 0 <= k < |reps[cur].children| ==> reps[cur].children[k] == n0 + k
  {
  }

  /* ---------- the order of the walk ---------- */

  /** The record of the outer loop: round `t` popped box `order[t]` when
      `made[t]` boxes existed. Each round pops the newest box not popped
      before (last in, first out), every box is popped at most once, and the
      popped box's children get the next ids, in child order, so that the
      next round starts with `made[t] + ` (number of children) boxes. */
  ghost predicate LastInFirstOut(reps: seq<Representor>, order: seq<nat>, made: seq<nat>) {
    && |order| == |made|
    && (|order| > 0 ==> made[0] == 1)
    && (forall t, u :: 0 <= t < u < |order| ==> order[t] != order[u])
    && (forall t :: 0 <= t < |order| ==> order[t] < made[t] <= |reps|)
    && (forall t, b :: 0 <= t < |order| && order[t] < b < made[t] ==> b in order[..t])
    && (forall t, k :: 0 <= t < |order| && 0 <= k < |reps[order[t]].children| ==>
          reps[order[t]].children[k] == made[t] + k)
    && (forall t :: 0 <= t < |order| ==>
          (if t + 1 < |order| then made[t + 1] else |reps|) == made[t] + |reps[order[t]].children|)
  }

  /** The stack holds increasing ids, and a box is on it exactly when it has not been popped. */
  ghost predicate StackLog(reps: seq<Representor>, fringe: seq<nat>, order: seq<nat>, made: seq<nat>) {
    && LastInFirstOut(reps, order, made)
    && (|order| == 0 ==> |reps| == 1)
    && |order| + |fringe| == |reps|
    && (forall a :: 0 <= a < |fringe| ==> fringe[a] < |reps|)
    && (forall a, b :: 0 <= a < b < |fringe| ==> fringe[a] < fringe[b])
    && (forall b :: 0 <= b < |reps| ==> (b in fringe <==> b !in order))
  }

  /** Popping the top box, giving it `m` children with the next ids and
      pushing those keeps the record: the popped box was the newest one not
      popped before. */
  lemma LogStep(reps: seq<Representor>, reps': seq<Representor>, fringe: seq<nat>, rest: seq<nat>, fringe': seq<nat>,
                order: seq<nat>, made: seq<nat>, cur: nat)
    requires StackLog(reps, fringe, order, made)
    requires |fringe| > 0 && cur == fringe[|fringe| - 1] && rest == fringe[..|fringe| - 1]
    requires ChildrenKept(reps, reps', cur) && cur < |reps'|
    requires |reps'[cur].children| == |reps'| - |reps|
    requires forall k :: 0 <= k < |reps'[cur].children| ==> reps'[cur].children[k] == |reps| + k
    requires PushedOnto(rest, fringe', |reps|, |reps'| - |reps|)
    ensures StackLog(reps', fringe', order + [cur], made + [|reps|])
  {
    LogStepOrder(reps, reps', fringe, order, made, cur);
    LogStepStack(reps, reps', fringe, rest, fringe', order, made, cur);
  }

  /** The popped box is newer than every box left on the stack. */
  lemma TopIsNewest(reps: seq<Representor>, fringe: seq<nat>, order: seq<nat>, made: seq<nat>)
    requires StackLog(reps, fringe, order, made) && |fringe| > 0
    ensures var cur := fringe[|fringe| - 1];
            && cur < |reps| && cur !in order
            && (forall b :: cur < b < |reps| ==> b in order)
            && (forall a :: 0 <= a < |fringe| - 1 ==> fringe[a] < cur)
  {
    var cur := fringe[|fringe| - 1];
    assert cur in fringe;
    forall b | cur < b < |reps|
      ensures b in order
    {
      forall a | 0 <= a < |fringe|
        ensures fringe[a] != b
      {
        if a < |fringe| - 1 {
          assert fringe[a] < cur;
        }
      }
    }
  }

  lemma LogStepOrder(reps: seq<Representor>, reps': seq<Representor>, fringe: seq<nat>,
                     order: seq<nat>, made: seq<nat>, cur: nat)
    requires StackLog(reps, fringe, order, made)
    requires |fringe| > 0 && cur == fringe[|fringe| - 1]
    requires ChildrenKept(reps, reps', cur) && cur < |reps'|
    requires |reps'[cur].children| == |reps'| - |reps|
    requires forall k :: 0 <= k < |reps'[cur].children| ==> reps'[cur].children[k] == |reps| + k
    ensures LastInFirstOut(reps', order + [cur], made + [|reps|])
  {
    TopIsNewest(reps, fringe, order, made);
    LogNewest(order, made, cur, |reps|);
    LogChildren(reps, reps', order, made, cur);
  }

  /** The popped box is the newest one not popped before. */
  lemma LogNewest(order: seq<nat>, made: seq<nat>, cur: nat, n: nat)
    requires |order| == |made|
    requires forall t, b :: 0 <= t < |order| && order[t] < b < made[t] ==> b in order[..t]
    requires forall b :: cur < b < n ==> b in order
    ensures forall t, b :: 0 <= t < |order + [cur]| && (order + [cur])[t] < b < (made + [n])[t] ==>
              b in (order + [cur])[..t]
  {
    var order', made' := order + [cur], made + [n];
    assert order'[..|order|] == order;
    forall t, b | 0 <= t < |order'| && order'[t] < b < made'[t]
      ensures b in order'[..t]
    {
      if t < |order| {
        assert order'[..t] == order[..t];
        assert b in order[..t];
      }
    }
  }

  /** Boxes popped earlier keep their children; the popped box gets the next ids. */
  lemma LogChildren(reps: seq<Representor>, reps': seq<Representor>, order: seq<nat>, made: seq<nat>, cur: nat)
    requires LastInFirstOut(reps, order, made) && cur !in order && cur < |reps|
    requires ChildrenKept(reps, reps', cur) && cur < |reps'|
    requires |reps'[cur].children| == |reps'| - |reps|
    requires forall k :: 0 <= k < |reps'[cur].children| ==> reps'[cur].children[k] == |reps| + k
    ensures var order', made' := order + [cur], made + [|reps|];
            && (forall t :: 0 <= t < |order'| ==> order'[t] < made'[t] <= |reps'|)
            && (forall t, k :: 0 <= t < |order'| && 0 <= k < |reps'[order'[t]].children| ==>
                  reps'[order'[t]].children[k] == made'[t] + k)
            && (forall t :: 0 <= t < |order'| ==>
                  (if t + 1 < |order'| then made'[t + 1] else |reps'|) == made'[t] + |reps'[order'[t]].children|)
  {
    var order', made' := order + [cur], made + [|reps|];
    forall t | 0 <= t < |order|
      ensures reps'[order[t]].children == reps[order[t]].children
    {
      assert order[t] in order;
    }
    forall t | 0 <= t < |order'|
      ensures (if t + 1 < |order'| then made'[t + 1] else |reps'|) == made'[t] + |reps'[order'[t]].children|
    {
      if t < |order| {
        assert order'[t] == order[t] && made'[t] == made[t];
        assert (if t + 1 < |order| then made[t + 1] else |reps|) == made[t] + |reps[order[t]].children|;
        if t + 1 < |order| {
          assert made'[t + 1] == made[t + 1];
        } else {
          assert made'[t + 1] == |reps|;
        }
      }
    }
  }

  lemma LogStepStack(reps: seq<Representor>, reps': seq<Representor>, fringe: seq<nat>, rest: seq<nat>, fringe': seq<nat>,
                     order: seq<nat>, made: seq<nat>, cur: nat)
    requires StackLog(reps, fringe, order, made)
    requires |fringe| > 0 && cur == fringe[|fringe| - 1] && rest == fringe[..|fringe| - 1]
    requires |reps| <= |reps'|
    requires PushedOnto(rest, fringe', |reps|, |reps'| - |reps|)
    ensures |order + [cur]| + |fringe'| == |reps'|
    ensures forall a :: 0 <= a < |fringe'| ==> fringe'[a] < |reps'|
    ensures forall a, b :: 0 <= a < b < |fringe'| ==> fringe'[a] < fringe'[b]
    ensures forall b :: 0 <= b < |reps'| ==> (b in fringe' <==> b !in order + [cur])
  {
    var n := |reps|;
    TopIsNewest(reps, fringe, order, made);
    var order' := order + [cur];
    forall t | 0 <= t < |order'|
      ensures order'[t] < n
    {
      if t < |order| {
        assert order[t] < made[t];
      }
    }
    forall b | 0 <= b < |reps'|
      ensures b in fringe' <==> b !in order'
    {
      if n <= b {
        assert fringe'[|rest| + (b - n)] == b;
      } else if b == cur {
        forall a | 0 <= a < |fringe'|
          ensures fringe'[a] != cur
        {
          if a < |rest| {
            assert fringe[a] < cur;
          }
        }
      } else {
        forall a | 0 <= a < |fringe'| && fringe'[a] == b
          ensures b in fringe
        {
          assert fringe[a] == b;
        }
        forall a | 0 <= a < |fringe| && fringe[a] == b
          ensures b in fringe'
        {
          assert fringe'[a] == b;
        }
      }
    }
  }

  /** Later rounds start with at least as many boxes as earlier ones. */
  lemma {:induction false} MadeGrows(reps: seq<Representor>, order: seq<nat>, made: seq<nat>, s: nat, t: nat)
    requires LastInFirstOut(reps, order, made) && s <= t < |order|
    ensures made[s] <= made[t]
    decreases t - s
  {
    if s < t {
      MadeGrows(reps, order, made, s + 1, t);
    }
  }

  /** The stack discipline seen from the record: when a popped box has
      children, the very next round pops its last child, the newest box. */
  lemma LastChildNext(reps: seq<Representor>, order: seq<nat>, made: seq<nat>, t: nat)
    requires LastInFirstOut(reps, order, made)
    requires t + 1 < |order| && |reps[order[t]].children| > 0
    ensures order[t + 1] == reps[order[t]].children[|reps[order[t]].children| - 1]
  {
    var c := made[t + 1] - 1;
    forall s | 0 <= s <= t
      ensures order[s] != c
    {
      MadeGrows(reps, order, made, s, t);
    }
    assert c !in order[..t + 1];
  }

  /* ---------- the invariant, step by step ---------- */

  lemma InitialInv(page: Element, schema: Representor, picker: Picker)
    requires picker == Init()
    requires schema == NewRepresentor(page, BodyRepresentorColor, 0, [], LowerCase(page.name))
    ensures OuterInv(page, [schema], [0], [0], picker, BodyRepresentorColor)
  {
    var reps := [schema];
    assert Pending(page, reps, [0]) == Pending(page, reps, []) + SizeSum(page.children);
  }

  /** Popping the top of the stack: the rest of the stack is still a good
      work list, with the popped box now the one being expanded. */
  lemma PopWork(page: Element, reps: seq<Representor>, fringe: seq<nat>)
    requires PathsOk(page, reps)
    requires Worklist(page, reps, fringe, -1)
    requires |fringe| > 0
    ensures var cur := fringe[|fringe| - 1];
            var rest := fringe[..|fringe| - 1];
            && Worklist(page, reps, rest, cur)
            && reps[cur].children == []
            && Pending(page, reps, fringe)
               == Pending(page, reps, rest) + SizeSum(At(page, reps[cur].element).children[0..])
  {
    var cur := fringe[|fringe| - 1];
    var rest := fringe[..|fringe| - 1];
    assert fringe == rest + [cur];
    var cs := At(page, reps[cur].element).children;
    assert cs[0..] == cs;
    forall a | 0 <= a < |rest|
      ensures rest[a] != cur
    {
      assert fringe[a] == rest[a];
    }
    forall i | 0 <= i < |reps| && i != cur && i !in rest
      ensures Expanded(page, reps, i)
    {
      assert i !in fringe;
    }
  }

  lemma PopInv(page: Element, reps: seq<Representor>, parents: seq<nat>, fringe: seq<nat>, picker: Picker, preceding: Color)
    requires OuterInv(page, reps, parents, fringe, picker, preceding)
    requires |fringe| > 0
    ensures var cur := fringe[|fringe| - 1];
            InnerInv(page, reps, parents, fringe[..|fringe| - 1], picker, preceding, cur, 0)
  {
    PopWork(page, reps, fringe);
  }

  lemma EndInv(page: Element, reps: seq<Representor>, parents: seq<nat>, fringe: seq<nat>, picker: Picker, preceding: Color,
               cur: nat, n0: nat)
    requires cur < |reps| && PathsOk(page, reps)
    requires InnerInv(page, reps, parents, fringe, picker, preceding, cur, |At(page, reps[cur].element).children|)
    requires |reps| == n0 + |At(page, reps[cur].element).children|
    ensures OuterInv(page, reps, parents, fringe, picker, preceding)
    ensures |reps[cur].children| == |reps| - n0
    ensures forall k :: 0 <= k < |reps[cur].children| ==> reps[cur].children[k] == n0 + k
  {
    var cs := At(page, reps[cur].element).children;
    assert cs[|cs|..] == [];
    Numbered(reps, cur, n0);
  }

  /** Pending work depends only on which elements the stacked boxes stand for. */
  lemma {:induction false} PendingFrame(page: Element, reps: seq<Representor>, reps': seq<Representor>, fringe: seq<nat>)
    requires PathsOk(page, reps) && PathsOk(page, reps')
    requires forall a :: 0 <= a < |fringe| ==>
               fringe[a] < |reps| && fringe[a] < |reps'| && reps'[fringe[a]].element == reps[fringe[a]].element
    ensures Pending(page, reps', fringe) == Pending(page, reps, fringe)
    decreases |fringe|
  {
    if fringe != [] {
      PendingFrame(page, reps, reps', fringe[..|fringe| - 1]);
    }
  }

  /** Growing the list keeps every old box's element, hence its tag. */
  lemma GrowsPaths(page: Element, reps: seq<Representor>, reps': seq<Representor>, cur: nat, child: Representor)
    requires PathsOk(page, reps) && Grows(reps, reps', cur, child) && ValidPath(page, child.element)
    ensures PathsOk(page, reps')
    ensures forall i :: 0 <= i < |reps| ==> Tag(page, reps', i) == Tag(page, reps, i)
    ensures Tag(page, reps', |reps|) == At(page, child.element).name
  {
    forall i | 0 <= i < |reps'|
      ensures ValidPath(page, reps'[i].element)
    {
      if i < |reps| {
        assert reps'[i].element == reps[i].element;
      }
    }
  }

  /** The box about to be made for child `j` of box `cur`, and how the list grows. */
  ghost predicate StepShape(page: Element, reps: seq<Representor>, reps': seq<Representor>, cur: nat, j: nat,
                            child: Representor)
  {
    && PathsOk(page, reps)
    && cur < |reps|
    && |reps[cur].children| == j
    && j < |At(page, reps[cur].element).children|
    && ValidPath(page, reps[cur].element + [j])
    && At(page, reps[cur].element + [j]) == At(page, reps[cur].element).children[j]
    && child.id == |reps|
    && child.element == reps[cur].element + [j]
    && child.children == []
    && child.text == LowerCase(At(page, reps[cur].element).children[j].name)
    && child.elementBg == At(page, reps[cur].element).children[j].background
    && Grows(reps, reps', cur, child)
    && PathsOk(page, reps')
    && (forall i :: 0 <= i < |reps| ==> Tag(page, reps', i) == Tag(page, reps, i))
    && Tag(page, reps', |reps|) == At(page, reps[cur].element).children[j].name
  }

  /** The new box's element has no box yet, so elements still have one box each. */
  lemma StepDistinct(page: Element, reps: seq<Representor>, reps': seq<Representor>, parents: seq<nat>,
                     cur: nat, j: nat, child: Representor)
    requires StepShape(page, reps, reps', cur, j, child)
    requires PathsDistinct(reps) && ParentLinks(reps, parents) && RootOk(reps)
    ensures PathsDistinct(reps')
  {
    var P := reps[cur].element;
    assert (P + [j])[..|P + [j]| - 1] == P;
    forall m | 0 < m < |reps|
      ensures reps[m].element != P + [j]
    {
      assert IsParentOf(reps, parents[m], m);
    }
  }

  /** Appending a child box keeps the child links. */
  lemma StepChildLinks(reps: seq<Representor>, reps': seq<Representor>, cur: nat, j: nat, child: Representor)
    requires Grows(reps, reps', cur, child)
    requires |reps[cur].children| == j
    requires child.id == |reps| && child.children == [] && child.element == reps[cur].element + [j]
    requires j > 0 ==> reps[cur].children[j - 1] == |reps| - 1
    requires ChildLinks(reps)
    ensures ChildLinks(reps')
  {
    var n := |reps|;
    forall i, k | 0 <= i < |reps'| && 0 <= k < |reps'[i].children|
      ensures && i < reps'[i].children[k] < |reps'|
              && reps'[reps'[i].children[k]].element == reps'[i].element + [k]
              && reps'[i].children[k] == reps'[i].children[0] + k
    {
      if i == cur {
        if k == j {
          if j > 0 {
            assert reps[cur].children[j - 1] == reps[cur].children[0] + (j - 1);
            assert reps'[cur].children[0] == reps[cur].children[0];
          }
        } else {
          assert reps'[i].children[k] == reps[i].children[k];
          assert reps'[i].children[0] == reps[i].children[0];
        }
      } else {
        assert i < n;
        assert reps'[i].children == reps[i].children;
      }
    }
  }

  /** Appending a child box keeps the parent links, the new box's parent being `cur`. */
  lemma StepParentLinks(reps: seq<Representor>, reps': seq<Representor>, parents: seq<nat>, cur: nat, j: nat,
                        child: Representor)
    requires Grows(reps, reps', cur, child)
    requires |reps[cur].children| == j
    requires child.id == |reps| && child.element == reps[cur].element + [j]
    requires ParentLinks(reps, parents)
    ensures ParentLinks(reps', parents + [cur])
  {
    var n := |reps|;
    var P := reps[cur].element;
    var parents' := parents + [cur];
    assert (P + [j])[..|P + [j]| - 1] == P;
    forall m | 0 < m < |reps'|
      ensures reps'[m].element != [] && parents'[m] < m && IsParentOf(reps', parents'[m], m)
    {
      if m < n {
        var q := parents[m];
        assert parents'[m] == q;
        assert IsParentOf(reps, q, m);
        var p := reps[m].element;
        var last := p[|p| - 1];
        assert reps'[m].element == p;
        assert reps'[q].element == reps[q].element;
        assert reps'[q].children[last] == reps[q].children[last];
      } else {
        assert reps'[cur].children[j] == m;
        assert parents'[m] == cur;
      }
    }
  }

  /** The picker's fixed tags follow the new box. */
  lemma StepPicker(page: Element, reps: seq<Representor>, reps': seq<Representor>, picker: Picker, preceding: Color,
                   cur: nat, j: nat, child: Representor, pick: Pick)
    requires StepShape(page, reps, reps', cur, j, child)
    requires PickerOk(page, reps, picker)
    requires Picked(picker, At(page, reps[cur].element).children[j].name, reps[cur].color, preceding, pick)
    requires child.color == pick.color
    ensures PickerOk(page, reps', pick.picker)
  {
    var n := |reps|;
    var P := reps[cur].element;
    var tag := At(page, P).children[j].name;
    TagsBelowFrame(page, reps, reps', n);
    assert TagsBelow(page, reps', n + 1) == TagsBelow(page, reps, n) + {tag};
    forall m | 0 < m < |reps'|
      ensures Tag(page, reps', m) in pick.picker.tagColors
              && pick.picker.tagColors[Tag(page, reps', m)] == reps'[m].color
    {
      if m < n {
        assert Tag(page, reps', m) == Tag(page, reps, m);
      }
    }
  }

  /** The new box is the first of its tag only if the picker had not fixed
      the tag, and then its colour avoids its parent's and the running colour. */
  lemma NewBoxContrast(page: Element, reps: seq<Representor>, reps': seq<Representor>, picker: Picker,
                       preceding: Color, cur: nat, j: nat, child: Representor, pick: Pick)
    requires StepShape(page, reps, reps', cur, j, child)
    requires picker.tagColors.Keys == TagsBelow(page, reps, |reps|)
    requires preceding == reps[|reps| - 1].color
    requires Picked(picker, At(page, reps[cur].element).children[j].name, reps[cur].color, preceding, pick)
    requires child.color == pick.color
    ensures FirstOfTag(page, reps', |reps|) ==>
              Avoids(reps'[|reps|].color, reps'[cur].color, reps'[|reps| - 1].color)
  {
    var n := |reps|;
    var tag := At(page, reps[cur].element).children[j].name;
    if FirstOfTag(page, reps', n) && tag in picker.tagColors {
      TagsBelowMember(page, reps, n, tag);
    }
  }

  /** One instance of `Contrast`: the `k`-th child of box `i`. */
  lemma ContrastAt(page: Element, reps: seq<Representor>, i: nat, k: nat)
    requires PathsOk(page, reps) && Contrast(page, reps)
    requires i < |reps| && k < |reps[i].children| && 0 < reps[i].children[k] < |reps|
    requires FirstOfTag(page, reps, reps[i].children[k])
    ensures Avoids(reps[reps[i].children[k]].color, reps[i].color, reps[reps[i].children[k] - 1].color)
  {
  }

  /** Being first of its tag among more boxes implies being first among fewer. */
  lemma FirstOfTagPrefix(page: Element, reps: seq<Representor>, reps': seq<Representor>, c: nat)
    requires PathsOk(page, reps) && PathsOk(page, reps')
    requires c < |reps| <= |reps'|
    requires forall i :: 0 <= i < |reps| ==> Tag(page, reps', i) == Tag(page, reps, i)
    requires FirstOfTag(page, reps', c)
    ensures FirstOfTag(page, reps, c)
  {
    forall q | 0 < q < c
      ensures Tag(page, reps, q) != Tag(page, reps, c)
    {
      assert Tag(page, reps', q) != Tag(page, reps', c);
    }
  }

  /** Appending a box keeps the contrast property of the old boxes. */
  lemma StepContrast(page: Element, reps: seq<Representor>, reps': seq<Representor>, cur: nat, child: Representor)
    requires PathsOk(page, reps) && PathsOk(page, reps') && Grows(reps, reps', cur, child)
    requires child.id == |reps| && child.children == []
    requires forall i :: 0 <= i < |reps| ==> Tag(page, reps', i) == Tag(page, reps, i)
    requires ChildLinks(reps) && Contrast(page, reps)
    requires FirstOfTag(page, reps', |reps|) ==>
               Avoids(reps'[|reps|].color, reps'[cur].color, reps'[|reps| - 1].color)
    ensures Contrast(page, reps')
  {
    var n := |reps|;
    var j := |reps[cur].children|;
    forall i, k | && 0 <= i < |reps'| && 0 <= k < |reps'[i].children|
                  && 0 < reps'[i].children[k] < |reps'|
                  && FirstOfTag(page, reps', reps'[i].children[k])
      ensures Avoids(reps'[reps'[i].children[k]].color, reps'[i].color, reps'[reps'[i].children[k] - 1].color)
    {
      var c := reps'[i].children[k];
      if i == cur && k == j {
        assert c == n;
      } else {
        if i == n {
          // the new box has no children yet
          assert false;
        }
        if i == cur {
          assert reps'[i].children[k] == reps[i].children[k];
        } else {
          assert reps'[i].children == reps[i].children;
        }
        FirstOfTagPrefix(page, reps, reps', c);
        ContrastAt(page, reps, i, k);
        assert reps'[c].color == reps[c].color && reps'[c - 1].color == reps[c - 1].color;
        assert reps'[i].color == reps[i].color;
      }
    }
  }

  /** The new box shows its element's tag and background; old boxes are untouched. */
  lemma StepFields(page: Element, reps: seq<Representor>, reps': seq<Representor>, cur: nat, child: Representor)
    requires PathsOk(page, reps) && PathsOk(page, reps') && Grows(reps, reps', cur, child)
    requires FieldsOk(page, reps)
    requires child.text == LowerCase(At(page, child.element).name)
    requires child.elementBg == At(page, child.element).background
    ensures FieldsOk(page, reps')
  {
    forall i | 0 <= i < |reps'|
      ensures && reps'[i].text == LowerCase(At(page, reps'[i].element).name)
              && reps'[i].elementBg == At(page, reps'[i].element).background
    {
      if i < |reps| {
        assert reps'[i].element == reps[i].element;
      }
    }
  }

  /** Pushing the new box keeps the work list. */
  lemma StepWorklist(page: Element, reps: seq<Representor>, reps': seq<Representor>, fringe: seq<nat>,
                     cur: nat, child: Representor)
    requires PathsOk(page, reps) && PathsOk(page, reps') && Grows(reps, reps', cur, child)
    requires child.id == |reps| && child.children == []
    requires Worklist(page, reps, fringe, cur)
    ensures Worklist(page, reps', fringe + [|reps|], cur)
  {
    var n := |reps|;
    var fringe' := fringe + [n];
    forall a | 0 <= a < |fringe'|
      ensures fringe'[a] < |reps'| && fringe'[a] != cur && reps'[fringe'[a]].children == []
    {
      if a < |fringe| {
        assert fringe'[a] == fringe[a];
      }
    }
    forall i | 0 <= i < |reps'| && i != cur && i !in fringe'
      ensures Expanded(page, reps', i)
    {
      assert i != n;
      assert i !in fringe;
      assert reps'[i].children == reps[i].children && reps'[i].element == reps[i].element;
    }
  }

  /** Pushing the box for child `j` of `cur` moves that child's subtree from
      "still to visit below `cur`" to "below the stack": the total is kept. */
  lemma StepPending(page: Element, reps: seq<Representor>, reps': seq<Representor>, fringe: seq<nat>,
                    cur: nat, j: nat, child: Representor)
    requires PathsOk(page, reps) && PathsOk(page, reps') && Grows(reps, reps', cur, child)
    requires forall a :: 0 <= a < |fringe| ==> fringe[a] < |reps|
    requires j < |At(page, reps[cur].element).children|
    requires child.element == reps[cur].element + [j]
    requires ValidPath(page, child.element) && At(page, child.element) == At(page, reps[cur].element).children[j]
    requires |reps| + Pending(page, reps, fringe) + SizeSum(At(page, reps[cur].element).children[j..]) == Size(page)
    ensures |reps'| + Pending(page, reps', fringe + [|reps|])
            + SizeSum(At(page, reps'[cur].element).children[j + 1..]) == Size(page)
  {
    var n := |reps|;
    var fringe' := fringe + [n];
    var cs := At(page, reps[cur].element).children;
    PendingFrame(page, reps, reps', fringe);
    assert fringe'[..|fringe'| - 1] == fringe;
    assert Pending(page, reps', fringe') == Pending(page, reps, fringe) + SizeSum(cs[j].children);
    SizeSumSuffix(cs, j);
  }

  /** The new box takes the next id; the root box is untouched. */
  lemma StepIds(reps: seq<Representor>, reps': seq<Representor>, cur: nat, child: Representor)
    requires Grows(reps, reps', cur, child) && child.id == |reps|
    requires RootOk(reps) && IdsDense(reps)
    ensures RootOk(reps') && IdsDense(reps')
    ensures reps'[|reps'| - 1].color == child.color
  {
    assert reps'[0].element == reps[0].element && reps'[0].color == reps[0].color;
  }

  /** The facts about the boxes made so far survive adding the box for child `j` of `cur`. */
  lemma StepCore(page: Element, reps: seq<Representor>, reps': seq<Representor>, parents: seq<nat>,
                 picker: Picker, preceding: Color, cur: nat, j: nat, child: Representor, pick: Pick)
    requires Core(page, reps, parents, picker, preceding)
    requires StepShape(page, reps, reps', cur, j, child)
    requires Picked(picker, At(page, reps[cur].element).children[j].name, reps[cur].color, preceding, pick)
    requires child.color == pick.color
    requires j > 0 ==> reps[cur].children[j - 1] == |reps| - 1
    ensures Core(page, reps', parents + [cur], pick.picker, pick.color)
  {
    StepDistinct(page, reps, reps', parents, cur, j, child);
    StepChildLinks(reps, reps', cur, j, child);
    StepParentLinks(reps, reps', parents, cur, j, child);
    StepPicker(page, reps, reps', picker, preceding, cur, j, child, pick);
    NewBoxContrast(page, reps, reps', picker, preceding, cur, j, child, pick);
    StepContrast(page, reps, reps', cur, child);
    StepFields(page, reps, reps', cur, child);
    StepIds(reps, reps', cur, child);
  }

  /** One child of `cur` gets its box: the inner loop's body keeps the invariant. */
  lemma StepInv(page: Element, reps: seq<Representor>, parents: seq<nat>, fringe: seq<nat>, picker: Picker, preceding: Color,
                cur: nat, j: nat, pick: Pick, child: Representor)
    requires InnerInv(page, reps, parents, fringe, picker, preceding, cur, j)
    requires j < |At(page, reps[cur].element).children|
    requires var c := At(page, reps[cur].element).children[j];
             && pick == GetColor(picker, c.name, reps[cur].color, preceding)
             && ValidPath(page, reps[cur].element + [j])
             && child == NewRepresentor(page, pick.color, |reps|, reps[cur].element + [j], LowerCase(c.name))
    ensures InnerInv(page, Attach(reps, cur, child), parents + [cur], fringe + [|reps|], pick.picker, pick.color, cur, j + 1)
  {
    var reps' := Attach(reps, cur, child);
    ChildPath(page, reps[cur].element, j);
    GrowsPaths(page, reps, reps', cur, child);
    assert StepShape(page, reps, reps', cur, j, child);
    assert Picked(picker, At(page, reps[cur].element).children[j].name, reps[cur].color, preceding, pick);
    StepCore(page, reps, reps', parents, picker, preceding, cur, j, child, pick);
    StepWorklist(page, reps, reps', fringe, cur, child);
    StepPending(page, reps, reps', fringe, cur, j, child);
  }

  /** Every element of the page has a box once every box is expanded. */
  lemma {:induction false} Covered(page: Element, reps: seq<Representor>, p: Path)
    requires RootOk(reps) && PathsOk(page, reps) && ChildLinks(reps)
    requires forall i :: 0 <= i < |reps| ==> Expanded(page, reps, i)
    requires ValidPath(page, p)
    ensures exists i :: 0 <= i < |reps| && reps[i].element == p
    decreases |p|
  {
    if p == [] {
      assert reps[0].element == p;
    } else {
      var init := p[..|p| - 1];
      var last := p[|p| - 1];
      ParentPath(page, p);
      Covered(page, reps, init);
      var q :| 0 <= q < |reps| && reps[q].element == init;
      assert Expanded(page, reps, q);
      var c := reps[q].children[last];
      assert reps[c].element == init + [last];
      assert init + [last] == p;
    }
  }

  /** Non-root boxes have the picker's colours, hence palette colours. */
  lemma BoxColors(page: Element, reps: seq<Representor>, picker: Picker)
    requires PathsOk(page, reps) && PickerOk(page, reps, picker)
    ensures ColorsOk(reps)
  {
    forall m | 0 < m < |reps|
      ensures reps[m].color in Palette
    {
      QueueColors(picker, picker.tagColors[Tag(page, reps, m)]);
    }
  }

  lemma FinalFacts(page: Element, reps: seq<Representor>, parents: seq<nat>, picker: Picker, preceding: Color)
    requires OuterInv(page, reps, parents, [], picker, preceding)
    ensures ColorsOk(reps)
    ensures |reps| == Size(page)
    ensures forall i :: 0 <= i < |reps| ==> Expanded(page, reps, i)
    ensures forall p :: ValidPath(page, p) ==> exists i :: 0 <= i < |reps| && reps[i].element == p
    ensures forall i, k :: 0 < i < |reps| && 0 < k < |reps| && Tag(page, reps, i) == Tag(page, reps, k) ==>
              reps[i].color == reps[k].color
  {
    BoxColors(page, reps, picker);
    forall p | ValidPath(page, p)
      ensures exists i :: 0 <= i < |reps| && reps[i].element == p
    {
      Covered(page, reps, p);
    }
  }

  /** With ids dense, the lookup `getElementById(`elem#${i}`)` for each
      `i` below the final counter finds exactly one box: box `i`. */
  lemma DomIdsUnique(reps: seq<Representor>)
    requires IdsDense(reps)
    ensures forall i, k :: 0 <= i < |reps| && 0 <= k < |reps| ==> (ElemId(reps[k].id) == ElemId(i) <==> k == i)
  {
    forall i, k | 0 <= i < |reps| && 0 <= k < |reps|
      ensures ElemId(reps[k].id) == ElemId(i) <==> k == i
    {
      ElemIdInjective(reps[k].id, i);
    }
  }
}
