/** Comparing without an early return. Bytes and lengths are below two to the 32nd, where the
    platform's bitwise operators are those of the binary digits. */
module ConstantTime {
  function Xor(x: nat, y: nat): nat {
    if x == 0 then y else if y == 0 then x
    else 2 * Xor(x / 2, y / 2) + if x % 2 == y % 2 then 0 else 1
  }

  function Or(x: nat, y: nat): nat {
    if x == 0 then y else if y == 0 then x
    else 2 * Or(x / 2, y / 2) + if x % 2 == 0 && y % 2 == 0 then 0 else 1
  }

  lemma {:induction false} XorZero(x: nat, y: nat)
    ensures Xor(x, y) == 0 <==> x == y
  {
    if x > 0 && y > 0 {
      XorZero(x / 2, y / 2);
    }
  }

  lemma {:induction false} OrZero(x: nat, y: nat)
    ensures Or(x, y) == 0 <==> x == 0 && y == 0
  {
    if x > 0 && y > 0 {
      OrZero(x / 2, y / 2);
    }
  }

  /** The byte at `i`, or zero past the end. */
  function At(s: seq<nat>, i: nat): nat {
    if i < |s| then s[i] else 0
  }

  /** Every byte of both is looked at, and the answer is plain equality. */
  method ConstantTimeEquals(a: seq<nat>, b: seq<nat>) returns (equal: bool)
    ensures equal <==> a == b
  {
    var mismatch := Xor(|a|, |b|);
    XorZero(|a|, |b|);
    var span := if |a| > |b| then |a| else |b|;
    for index := 0 to span
      invariant mismatch == 0 <==> |a| == |b| && forall i :: 0 <= i < index ==> At(a, i) == At(b, i)
    {
      var difference := Xor(At(a, index), At(b, index));
      XorZero(At(a, index), At(b, index));
      OrZero(mismatch, difference);
      mismatch := Or(mismatch, difference);
    }
    if |a| == |b| && forall i :: 0 <= i < span ==> At(a, i) == At(b, i) {
      assert forall i :: 0 <= i < |a| ==> a[i] == At(a, i) == At(b, i) == b[i];
    } else if |a| == |b| {
      var i :| 0 <= i < span && At(a, i) != At(b, i);
      assert a[i] != b[i];
    }
    return mismatch == 0;
  }
}
