/** Decimal rendering of integers (`int.ToString()` in the invariant culture)
    and the element ids built from it. */
module Ids {

  predicate IsDigit(c: char)
  {
    '0' <= c <= '9'
  }

  function Digit(d: nat): (c: char)
    requires d < 10
    ensures IsDigit(c)
  {
    ['0', '1', '2', '3', '4', '5', '6', '7', '8', '9'][d]
  }

  /** Decimal digits of n, most significant first, without leading zeros. */
  function NatToString(n: nat): (s: string)
    ensures |s| >= 1
    ensures forall i :: 0 <= i < |s| ==> IsDigit(s[i])
    ensures (|s| == 1) == (n < 10)
  {
    if n < 10 then [Digit(n)] else NatToString(n / 10) + [Digit(n % 10)]
  }

  /** `int.ToString()`: a minus sign before the digits of a negative number. */
  function IntToString(i: int): (s: string)
    ensures |s| >= 1
    ensures (s[0] == '-') == (i < 0)
  {
    if i < 0 then "-" + NatToString(-i) else NatToString(i)
  }

  lemma DigitInjective(a: nat, b: nat)
    requires a < 10 && b < 10 && Digit(a) == Digit(b)
    ensures a == b
  {
  }

  /** Different numbers have different decimal renderings. */
  lemma {:induction false} NatToStringInjective(a: nat, b: nat)
    requires NatToString(a) == NatToString(b)
    ensures a == b
  {
    var sa, sb := NatToString(a), NatToString(b);
    if a < 10 {
      assert b < 10;
      DigitInjective(a, b);
    } else {
      assert b >= 10;
      var pa, pb := NatToString(a / 10), NatToString(b / 10);
      assert sa == pa + [Digit(a % 10)] && sb == pb + [Digit(b % 10)];
      assert |pa| == |pb|;
      assert pa == sa[..|pa|] && pb == sb[..|pb|];
      NatToStringInjective(a / 10, b / 10);
      assert sa[|pa|] == Digit(a % 10) && sb[|pb|] == Digit(b % 10);
      DigitInjective(a % 10, b % 10);
    }
  }

  lemma SignDropped(digits: string)
    ensures ("-" + digits)[1..] == digits
  {
  }

  lemma IntToStringInjective(a: int, b: int)
    requires IntToString(a) == IntToString(b)
    ensures a == b
  {
    var sa, sb := IntToString(a), IntToString(b);
    assert (a < 0) == (b < 0) by { assert sa[0] == sb[0]; }
    if a < 0 {
      var da, db := NatToString(-a), NatToString(-b);
      assert sa == "-" + da && sb == "-" + db;
      SignDropped(da);
      SignDropped(db);
      NatToStringInjective(-a, -b);
    } else {
      NatToStringInjective(a, b);
    }
  }

  /** Two ids made of the same prefix and a number differ exactly when the numbers do. */
  lemma PrefixedIdInjective(prefix: string, a: int, b: int)
    requires prefix + IntToString(a) == prefix + IntToString(b)
    ensures a == b
  {
    var sa, sb := prefix + IntToString(a), prefix + IntToString(b);
    assert IntToString(a) == sa[|prefix|..] && IntToString(b) == sb[|prefix|..];
    IntToStringInjective(a, b);
  }

  /** `"meshId" + i`: the id of the i-th mesh of the mesh list. */
  function MeshId(i: int): string
  {
    "meshId" + IntToString(i)
  }

  /** Mesh ids never collide. */
  lemma MeshIdInjective(a: int, b: int)
    requires MeshId(a) == MeshId(b)
    ensures a == b
  {
    PrefixedIdInjective("meshId", a, b);
  }
}
