/** The DOM id a box gets, `elem#<index>` with the index in decimal, and
    its inverse: reading the index back out of the id. */
module ElementIds {

  /** Decimal digit character of `d`. */
  function DigitChar(d: nat): char
    requires d < 10
  {
    "0123456789"[d]
  }

  /** Value of a decimal digit character. */
  function DigitValue(c: char): nat {
    if '0' <= c <= '9' then c as int - '0' as int else 0
  }

  predicate IsDigit(c: char) {
    '0' <= c <= '9'
  }

  /** Decimal rendering of `n`, as JavaScript's template literal writes a
      non-negative integer below 10^21: most significant digit first, no
      leading zeros. From 10^21 on JavaScript switches to exponent form
      (`1e+21`), which this rendering does not produce. */
  function Decimal(n: nat): (r: string)
    ensures |r| > 0
    ensures forall i :: 0 <= i < |r| ==> IsDigit(r[i])
    ensures |r| > 1 ==> r[0] != '0'
  {
    if n < 10 then [DigitChar(n)] else Decimal(n / 10) + [DigitChar(n % 10)]
  }

  /** Number written by a string of decimal digits. */
  function ParseDecimal(s: string): nat {
    if s == [] then 0 else ParseDecimal(s[..|s| - 1]) * 10 + DigitValue(s[|s| - 1])
  }

  /** Reading a rendered number gives the number back. */
  lemma {:induction false} ParseDecimalInverse(n: nat)
    ensures ParseDecimal(Decimal(n)) == n
  {
    var s := Decimal(n);
    if n < 10 {
      assert s[..|s| - 1] == [];
    } else {
      ParseDecimalInverse(n / 10);
      assert s[..|s| - 1] == Decimal(n / 10);
    }
  }

  const Prefix: string := "elem#"

  /** The DOM id `elem#${index}` given to the box made with counter value `index`. */
  function ElemId(index: nat): (r: string)
    ensures |r| > |Prefix| && r[..|Prefix|] == Prefix
    ensures forall i :: |Prefix| <= i < |r| ==> IsDigit(r[i])
  {
    Prefix + Decimal(index)
  }

  /** The index an id of the form `elem#<digits>` names. */
  function IndexOf(id: string): nat {
    if |id| < |Prefix| then 0 else ParseDecimal(id[|Prefix|..])
  }

  /** The index can be read back out of the id. */
  lemma IndexOfElemId(index: nat)
    ensures IndexOf(ElemId(index)) == index
  {
    var id := ElemId(index);
    assert id[|Prefix|..] == Decimal(index);
    ParseDecimalInverse(index);
  }

  /** Two boxes share a DOM id exactly when they were made with the same counter value. */
  lemma ElemIdInjective(a: nat, b: nat)
    ensures ElemId(a) == ElemId(b) <==> a == b
  {
    if ElemId(a) == ElemId(b) {
      IndexOfElemId(a);
      IndexOfElemId(b);
    }
  }
}
