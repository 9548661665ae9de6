/** Comparison that accumulates every difference before answering. */
module ConstantTime {

  /** Bitwise exclusive or of machine words, bit by bit. */
  function Xor(m: nat, n: nat): nat {
    if m == 0 && n == 0 then 0 else (if m % 2 == n % 2 then 0 else 1) + 2 * Xor(m / 2, n / 2)
  }

  /** Bitwise or of machine words, bit by bit. */
  function Or(m: nat, n: nat): nat {
    if m == 0 && n == 0 then 0 else (if m % 2 == 0 && n % 2 == 0 then 0 else 1) + 2 * Or(m / 2, n / 2)
  }

  lemma {:induction false} XorIsZero(m: nat, n: nat)
    ensures Xor(m, n) == 0 <==> m == n
  {
    if m != 0 || n != 0 {
      XorIsZero(m / 2, n / 2);
    }
  }

  lemma {:induction false} OrIsZero(m: nat, n: nat)
    ensures Or(m, n) == 0 <==> m == 0 && n == 0
  {
    if m != 0 || n != 0 {
      OrIsZero(m / 2, n / 2);
    }
  }

  lemma WidenedXorIsZero(x: bv8, y: bv8)
    ensures (x ^ y) as nat == 0 <==> x == y
  {
    assert x ^ y == 0 <==> x == y;
  }

  /** A position past the end reads as a zero byte. */
  function At(s: seq<bv8>, i: nat): bv8 {
    if i < |s| then s[i] else 0
  }

  /** Agrees with plain equality on byte strings of any two lengths. */
  method SecureEquals(a: seq<bv8>, b: seq<bv8>) returns (equal: bool)
    ensures equal <==> a == b
  {
    var diff := Xor(|a|, |b|);
    XorIsZero(|a|, |b|);
    var maxLen := if |a| < |b| then |b| else |a|;
    for i := 0 to maxLen
      invariant diff == 0 <==> |a| == |b| && forall k :: 0 <= k < i ==> At(a, k) == At(b, k)
    {
      var av, bv := At(a, i), At(b, i);
      WidenedXorIsZero(av, bv);
      OrIsZero(diff, (av ^ bv) as nat);
      diff := Or(diff, (av ^ bv) as nat);
    }
    assert diff == 0 ==> forall k :: 0 <= k < |a| ==> a[k] == At(a, k) == At(b, k) == b[k];
    equal := diff == 0;
  }
}
