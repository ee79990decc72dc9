/** Cyclic shifts of a sequence: the queue discipline of the colour picker,
    where the front element is taken off and appended at the back. */
module Rotation {

  /** Index in the original sequence of position `i` after a left shift by `k`. */
  function Source(i: nat, k: nat, n: nat): nat {
    if i + k < n then i + k else i + k - n
  }

  /** One step of the queue: the front element moves to the back (`push(shift())`). */
  function ShiftOnce<T>(s: seq<T>): (r: seq<T>)
    requires |s| > 0
    ensures |r| == |s|
    ensures r[|r| - 1] == s[0]
    ensures forall i :: 0 <= i < |s| - 1 ==> r[i] == s[i + 1]
  {
    s[1..] + [s[0]]
  }

  /** `s` after `k` queue steps: the first `k` elements have moved to the back. */
  function Rotate<T>(s: seq<T>, k: nat): (r: seq<T>)
    requires k <= |s|
    ensures |r| == |s|
    decreases k
  {
    if k == 0 then s else Rotate(ShiftOnce(s), k - 1)
  }

  /** Position `i` of the rotated sequence holds the element `k` places further on, cyclically. */
  lemma {:induction false} RotateIndex<T>(s: seq<T>, k: nat)
    requires k <= |s|
    ensures forall i :: 0 <= i < |s| ==> Rotate(s, k)[i] == s[Source(i, k, |s|)]
    decreases k
  {
    if k > 0 {
      RotateIndex(ShiftOnce(s), k - 1);
      forall i | 0 <= i < |s|
        ensures Rotate(s, k)[i] == s[Source(i, k, |s|)]
      {
        var x := Source(i, k - 1, |s|);
        assert Rotate(s, k)[i] == ShiftOnce(s)[x];
      }
    }
  }

  /** A rotation has the same elements, with the same multiplicities. */
  lemma {:induction false} RotateMultiset<T>(s: seq<T>, k: nat)
    requires k <= |s|
    ensures multiset(Rotate(s, k)) == multiset(s)
    decreases k
  {
    if k > 0 {
      assert s == [s[0]] + s[1..];
      RotateMultiset(ShiftOnce(s), k - 1);
    }
  }

  /** `q` is a cyclic shift of `p`: same elements, same cyclic order. */
  ghost predicate IsRotationOf<T>(q: seq<T>, p: seq<T>) {
    exists k :: 0 <= k <= |p| && q == Rotate(p, k)
  }

  /** Two rotations compose into one. */
  lemma RotateTwice<T>(s: seq<T>, a: nat, b: nat)
    requires a <= |s| && b <= |s|
    ensures var c := if a + b <= |s| then a + b else a + b - |s|;
            c <= |s| && Rotate(Rotate(s, a), b) == Rotate(s, c)
  {
    var c := if a + b <= |s| then a + b else a + b - |s|;
    var x := Rotate(Rotate(s, a), b);
    var y := Rotate(s, c);
    RotateIndex(Rotate(s, a), b);
    RotateIndex(s, a);
    RotateIndex(s, c);
    forall i | 0 <= i < |s|
      ensures x[i] == y[i]
    {
      assert x[i] == Rotate(s, a)[Source(i, b, |s|)];
    }
  }

  /** Being a rotation of `p` is preserved by any further rotation. */
  lemma RotationOfRotation<T>(q: seq<T>, p: seq<T>, k: nat)
    requires IsRotationOf(q, p)
    requires k <= |q|
    ensures IsRotationOf(Rotate(q, k), p)
  {
    var a :| 0 <= a <= |p| && q == Rotate(p, a);
    RotateTwice(p, a, k);
  }

  /** Every sequence is a rotation of itself. */
  lemma RotationOfSelf<T>(p: seq<T>)
    ensures IsRotationOf(p, p)
  {
    assert p == Rotate(p, 0);
  }
}
