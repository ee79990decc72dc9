/** The colour picker: one colour per tag name, chosen from a rotating queue
    so that a new tag's colour differs from its parent's and from the
    previously handed-out colour, and then fixed for that tag. */
module ColorPicker {
  import opened Colors
  import opened Rotation

  /** Picker state: the palette queue and the colours already fixed per tag. */
  datatype Picker = Picker(queue: seq<Color>, tagColors: map<string, Color>)

  /** Result of one `getColor` call: the colour handed out and the next state. */
  datatype Pick = Pick(color: Color, picker: Picker)

  /** The state every reachable picker is in: its queue is a rotation of the
      palette and every colour it has fixed is one of the queue's colours. */
  ghost predicate Valid(p: Picker) {
    && IsRotationOf(p.queue, Palette)
    && forall t :: t in p.tagColors ==> p.tagColors[t] in p.queue
  }

  /** The queue of a reachable picker holds exactly the palette's colours. */
  lemma QueueColors(p: Picker, c: Color)
    requires Valid(p)
    ensures c in p.queue <==> c in Palette
  {
    var k :| 0 <= k <= |Palette| && p.queue == Rotate(Palette, k);
    RotateMultiset(Palette, k);
    assert c in p.queue <==> c in multiset(p.queue);
  }

  /** The freshly constructed picker: an untouched copy of the palette and no tags. */
  function Init(): (p: Picker)
    ensures Valid(p)
    ensures p.tagColors == map[]
    ensures p.queue == Palette
  {
    RotationOfSelf(Palette);
    Picker(Palette, map[])
  }

  /** Colour `c` differs from both excluded colours. */
  predicate Avoids(c: Color, parent: Color, preceding: Color) {
    c != parent && c != preceding
  }

  /** Some colour of `q` differs from both excluded colours. */
  ghost predicate HasAllowed(q: seq<Color>, parent: Color, preceding: Color) {
    exists i :: 0 <= i < |q| && Avoids(q[i], parent, preceding)
  }

  /** Position of the first colour of `q` that avoids both excluded colours. */
  function FirstAllowed(q: seq<Color>, parent: Color, preceding: Color): (k: nat)
    requires HasAllowed(q, parent, preceding)
    ensures k < |q|
    ensures Avoids(q[k], parent, preceding)
    ensures forall j :: 0 <= j < k ==> !Avoids(q[j], parent, preceding)
  {
    if Avoids(q[0], parent, preceding) then 0
    else
      assert HasAllowed(q[1..], parent, preceding) by {
        var i :| 0 <= i < |q| && Avoids(q[i], parent, preceding);
        assert q[1..][i - 1] == q[i];
      }
      1 + FirstAllowed(q[1..], parent, preceding)
  }

  /** After one rotation of an excluded front, the first allowed colour is one place nearer. */
  lemma {:induction false} FirstAllowedAfterShift(q: seq<Color>, parent: Color, preceding: Color)
    requires HasAllowed(q, parent, preceding)
    requires !Avoids(q[0], parent, preceding)
    ensures HasAllowed(ShiftOnce(q), parent, preceding)
    ensures FirstAllowed(ShiftOnce(q), parent, preceding) == FirstAllowed(q, parent, preceding) - 1
  {
    var k := FirstAllowed(q, parent, preceding);
    var s := ShiftOnce(q);
    assert s[k - 1] == q[k];
  }

  /** The rotation loop of `getColor`: while the front equals an excluded
      colour, move it to the back. Terminates because the distance to the
      first allowed colour shrinks by one per step. */
  function Spin(q: seq<Color>, parent: Color, preceding: Color): (r: seq<Color>)
    requires HasAllowed(q, parent, preceding)
    ensures r == Rotate(q, FirstAllowed(q, parent, preceding))
    ensures Avoids(r[0], parent, preceding)
    decreases FirstAllowed(q, parent, preceding)
  {
    if Avoids(q[0], parent, preceding) then
      assert q == Rotate(q, 0);
      q
    else
      FirstAllowedAfterShift(q, parent, preceding);
      Spin(ShiftOnce(q), parent, preceding)
  }

  /** Any queue holding three distinct colours has one that avoids two excluded colours. */
  lemma ThreeColorsSuffice(q: seq<Color>, a: Color, b: Color, c: Color, parent: Color, preceding: Color)
    requires a in q && b in q && c in q
    requires a != b && b != c && a != c
    ensures HasAllowed(q, parent, preceding)
  {
    var x := if Avoids(a, parent, preceding) then a
             else if Avoids(b, parent, preceding) then b
             else c;
    var i :| 0 <= i < |q| && q[i] == x;
    assert Avoids(q[i], parent, preceding);
  }

  /** A reachable picker can always satisfy the rotation loop. */
  lemma ValidHasAllowed(p: Picker, parent: Color, preceding: Color)
    requires Valid(p)
    ensures HasAllowed(p.queue, parent, preceding)
  {
    PaletteFacts();
    var k :| 0 <= k <= |Palette| && p.queue == Rotate(Palette, k);
    RotateMultiset(Palette, k);
    assert Palette[0] in multiset(Palette) && Palette[1] in multiset(Palette) && Palette[2] in multiset(Palette);
    ThreeColorsSuffice(p.queue, Palette[0], Palette[1], Palette[2], parent, preceding);
  }

  /** The rotation loop run on a reachable picker's queue stops within one
      pass and leaves a rotation of the palette whose front is a palette colour. */
  lemma SpinOnValid(p: Picker, parent: Color, preceding: Color)
    requires Valid(p)
    ensures HasAllowed(p.queue, parent, preceding)
    ensures var q := Spin(p.queue, parent, preceding);
            && IsRotationOf(q, Palette)
            && q[0] in Palette
            && (forall c :: c in p.queue ==> c in q)
            && exists k :: 0 <= k < |p.queue| && q == Rotate(p.queue, k)
                           && forall j :: 0 <= j < k ==> !Avoids(p.queue[j], parent, preceding)
  {
    ValidHasAllowed(p, parent, preceding);
    var k := FirstAllowed(p.queue, parent, preceding);
    var q := Spin(p.queue, parent, preceding);
    RotationOfRotation(p.queue, Palette, k);
    RotateMultiset(p.queue, k);
    forall c | c in p.queue
      ensures c in q
    {
      assert c in multiset(p.queue);
    }
    assert q[0] in q;
    QueueColors(Picker(q, map[]), q[0]);
  }

  /** What one `getColor` call promises about the colour and state it hands
      back: the picker stays valid and the tag is fixed to the colour; a tag
      seen before gets its colour back with nothing changed; a new tag gets a
      colour avoiding both given colours and is the only tag added. */
  ghost predicate Picked(p: Picker, tag: string, parent: Color, preceding: Color, r: Pick) {
    && Valid(r.picker)
    && tag in r.picker.tagColors && r.picker.tagColors[tag] == r.color
    && (tag in p.tagColors ==> r == Pick(p.tagColors[tag], p))
    && (tag !in p.tagColors ==>
          Avoids(r.color, parent, preceding) && r.picker.tagColors == p.tagColors[tag := r.color])
  }

  /** `getColor(tagName, parentColor, precedingColor)`: a tag seen before gets
      its fixed colour back and nothing changes; a new tag gets the first
      queue colour that avoids both given colours, after rotating the excluded
      colours in front of it to the back, and that colour is fixed for it. */
  function GetColor(p: Picker, tag: string, parent: Color, preceding: Color): (r: Pick)
    requires Valid(p)
    ensures Picked(p, tag, parent, preceding, r)
    ensures r.color in Palette
    ensures tag !in p.tagColors ==>
              && r.color == r.picker.queue[0]
              && exists k :: 0 <= k < |p.queue| && r.picker.queue == Rotate(p.queue, k)
                             && forall j :: 0 <= j < k ==> !Avoids(p.queue[j], parent, preceding)
  {
    if tag in p.tagColors then
      QueueColors(p, p.tagColors[tag]);
      Pick(p.tagColors[tag], p)
    else
      SpinOnValid(p, parent, preceding);
      var q := Spin(p.queue, parent, preceding);
      Pick(q[0], Picker(q, p.tagColors[tag := q[0]]))
  }

  /** A tag's colour is sticky: once fixed, every later call for that tag
      returns it and leaves the state alone, whatever the other two colours are. */
  lemma Sticky(p: Picker, tag: string, parent: Color, preceding: Color, parent': Color, preceding': Color)
    requires Valid(p)
    ensures var first := GetColor(p, tag, parent, preceding);
            GetColor(first.picker, tag, parent', preceding') == first
  {
  }

  /** The root colour is never handed out to a tag. */
  lemma NeverBodyColor(p: Picker, tag: string, parent: Color, preceding: Color)
    requires Valid(p)
    ensures GetColor(p, tag, parent, preceding).color != BodyRepresentorColor
    ensures forall t :: t in p.tagColors ==> p.tagColors[t] != BodyRepresentorColor
  {
    PaletteFacts();
    forall t | t in p.tagColors
      ensures p.tagColors[t] != BodyRepresentorColor
    {
      QueueColors(p, p.tagColors[t]);
    }
  }
}
