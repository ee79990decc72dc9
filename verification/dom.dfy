/** The page, abstracted: a rose tree of elements, each with a tag name, the
    inline background it carries, and its element children in document order.
    An element is referred to by its path of child positions from the root. */
module Dom {

  datatype Element = Element(name: string, background: string, children: seq<Element>)

  /** Child positions leading from the root to an element; `[]` is the root. */
  type Path = seq<nat>

  /** `p` leads to an element of `e`. */
  predicate ValidPath(e: Element, p: Path)
    decreases p
  {
    p == [] || (p[0] < |e.children| && ValidPath(e.children[p[0]], p[1..]))
  }

  /** The element of `e` that `p` leads to. */
  function At(e: Element, p: Path): Element
    requires ValidPath(e, p)
    decreases p
  {
    if p == [] then e else At(e.children[p[0]], p[1..])
  }

  /** Number of elements in a tree: the root and every descendant. */
  function Size(e: Element): nat
    decreases e
  {
    1 + SizeSum(e.children)
  }

  /** Total number of elements in a list of trees. */
  function SizeSum(es: seq<Element>): nat
    decreases es
  {
    if es == [] then 0 else Size(es[0]) + SizeSum(es[1..])
  }

  /** Splitting off the first tree of a suffix. */
  lemma SizeSumSuffix(es: seq<Element>, j: nat)
    requires j < |es|
    ensures SizeSum(es[j..]) == Size(es[j]) + SizeSum(es[j + 1..])
  {
    assert es[j..][1..] == es[j + 1..];
  }

  /** The path to the `i`-th child of the element at `p`. */
  lemma {:induction false} ChildPath(e: Element, p: Path, i: nat)
    requires ValidPath(e, p)
    requires i < |At(e, p).children|
    ensures ValidPath(e, p + [i])
    ensures At(e, p + [i]) == At(e, p).children[i]
    decreases p
  {
    if p != [] {
      assert (p + [i])[1..] == p[1..] + [i];
      ChildPath(e.children[p[0]], p[1..], i);
    }
  }

  /** The path to the parent of a non-root element, and the child position it sits at. */
  lemma {:induction false} ParentPath(e: Element, p: Path)
    requires ValidPath(e, p)
    requires p != []
    ensures ValidPath(e, p[..|p| - 1])
    ensures p[|p| - 1] < |At(e, p[..|p| - 1]).children|
    ensures At(e, p) == At(e, p[..|p| - 1]).children[p[|p| - 1]]
    decreases p
  {
    if |p| > 1 {
      assert p[..|p| - 1][1..] == p[1..][..|p[1..]| - 1];
      ParentPath(e.children[p[0]], p[1..]);
    }
  }

  /** `e` with the background of the element at `p` replaced by `bg`
      (the assignment `element.style.backgroundColor = bg`). */
  function SetBackground(e: Element, p: Path, bg: string): (r: Element)
    requires ValidPath(e, p)
    decreases p
  {
    if p == [] then e.(background := bg)
    else e.(children := e.children[p[0] := SetBackground(e.children[p[0]], p[1..], bg)])
  }

  /** Setting one background changes nothing else: every path stays valid,
      names and child counts stay, and only the target's background moves. */
  lemma {:induction false} SetBackgroundAt(e: Element, p: Path, bg: string, q: Path)
    requires ValidPath(e, p) && ValidPath(e, q)
    ensures ValidPath(SetBackground(e, p, bg), q)
    ensures At(SetBackground(e, p, bg), q).name == At(e, q).name
    ensures |At(SetBackground(e, p, bg), q).children| == |At(e, q).children|
    ensures At(SetBackground(e, p, bg), q).background == if q == p then bg else At(e, q).background
    decreases q
  {
    if q != [] && p != [] {
      if p[0] == q[0] {
        SetBackgroundAt(e.children[p[0]], p[1..], bg, q[1..]);
        if p[1..] == q[1..] {
          assert p == [p[0]] + p[1..] && q == [q[0]] + q[1..];
        }
      } else {
        assert p != q;
      }
    }
  }

  /** Writing back the background an element already has changes nothing. */
  lemma {:induction false} SetBackgroundSame(e: Element, p: Path)
    requires ValidPath(e, p)
    ensures SetBackground(e, p, At(e, p).background) == e
    decreases p
  {
    if p != [] {
      SetBackgroundSame(e.children[p[0]], p[1..]);
    }
  }

  /** A later write to the same background overrides an earlier one. */
  lemma {:induction false} SetBackgroundTwice(e: Element, p: Path, x: string, y: string)
    requires ValidPath(e, p)
    ensures ValidPath(SetBackground(e, p, x), p)
    ensures SetBackground(SetBackground(e, p, x), p, y) == SetBackground(e, p, y)
    decreases p
  {
    if p != [] {
      SetBackgroundTwice(e.children[p[0]], p[1..], x, y);
    }
  }

  /** ASCII upper-case letter. */
  predicate IsUpper(c: char) {
    'A' <= c <= 'Z'
  }

  /** ASCII lower-casing of one character. */
  function LowerChar(c: char): (r: char)
    ensures !IsUpper(r)
    ensures !IsUpper(c) ==> r == c
    ensures IsUpper(c) ==> 'a' <= r <= 'z' && r as int - c as int == 'a' as int - 'A' as int
  {
    if IsUpper(c) then (c as int - 'A' as int + 'a' as int) as char else c
  }

  /** `toLocaleLowerCase`, restricted to ASCII letters: every upper-case
      letter is lowered, everything else is kept, the length is unchanged. */
  function LowerCase(s: string): (r: string)
    ensures |r| == |s|
    ensures forall i :: 0 <= i < |s| ==> r[i] == LowerChar(s[i])
    ensures forall i :: 0 <= i < |r| ==> !IsUpper(r[i])
  {
    if s == [] then [] else [LowerChar(s[0])] + LowerCase(s[1..])
  }
}
