/** Powers of two and the k-bit reversal permutation that the FFT table holds. */
module BitReversal {

  /** 2^k. */
  function Pow2(k: nat): (r: nat)
    ensures r >= 1
  {
    if k == 0 then 1 else 2 * Pow2(k - 1)
  }

  predicate IsPow2(n: nat) {
    exists k: nat :: k <= n && Pow2(k) == n
  }

  lemma {:induction false} Pow2AtLeastExponent(k: nat)
    ensures k < Pow2(k)
  {
    if k > 0 { Pow2AtLeastExponent(k - 1); }
  }

  lemma {:induction false} Pow2Monotone(j: nat, k: nat)
    ensures j < k <==> Pow2(j) < Pow2(k)
    ensures j <= k <==> Pow2(j) <= Pow2(k)
    decreases j + k
  {
    if j > 0 && k > 0 { Pow2Monotone(j - 1, k - 1); }
    else if j > 0 { assert Pow2(j) >= 2 by { Pow2Monotone(j - 1, 0); } }
    else if k > 0 { assert Pow2(k) >= 2 by { Pow2Monotone(0, k - 1); } }
  }

  lemma {:induction false} Pow2Add(j: nat, k: nat)
    ensures Pow2(j + k) == Pow2(j) * Pow2(k)
  {
    if j > 0 { Pow2Add(j - 1, k); }
  }

  /** The exponent of a power of two, unique by monotonicity. */
  ghost function Log2(n: nat): (k: nat)
    requires IsPow2(n)
    ensures Pow2(k) == n
  {
    var k: nat :| k <= n && Pow2(k) == n; k
  }

  lemma Log2Of(k: nat)
    ensures IsPow2(Pow2(k)) && Log2(Pow2(k)) == k
  {
    Pow2AtLeastExponent(k);
    var j := Log2(Pow2(k));
    Pow2Monotone(j, k);
  }

  /**
   * The low k bits of i, reversed: bit b of the result is bit k-1-b of i.
   * Bit 0 of i becomes bit k-1 of the result; the rest is the reversal of i / 2 in k-1 bits.
   */
  function Rev(i: nat, k: nat): nat
  {
    if k == 0 then 0
    else if i % 2 == 0 then Rev(i / 2, k - 1)
    else Pow2(k - 1) + Rev(i / 2, k - 1)
  }

  lemma {:induction false} RevBound(i: nat, k: nat)
    ensures Rev(i, k) < Pow2(k)
  {
    if k > 0 { RevBound(i / 2, k - 1); }
  }

  lemma {:induction false} RevZero(k: nat)
    ensures Rev(0, k) == 0
  {
    if k > 0 { RevZero(k - 1); }
  }

  /**
   * Setting bit j (below 2^j nothing is set there yet) adds 2^(k-1-j) to the reversal:
   * the step the table construction takes from entry i to entry i + limit.
   */
  lemma {:induction false} RevStep(i: nat, j: nat, k: nat)
    requires j < k && i < Pow2(j)
    ensures Rev(i + Pow2(j), k) == Rev(i, k) + Pow2(k - 1 - j)
  {
    if j == 0 {
      assert i == 0;
      RevZero(k - 1);
      RevZero(k);
    } else {
      var p := Pow2(j - 1);
      assert (i + Pow2(j)) % 2 == i % 2 && (i + Pow2(j)) / 2 == i / 2 + p;
      RevStep(i / 2, j - 1, k - 1);
    }
  }

  /** Below 2^(k-1) the top bit is clear, so reversing in k bits is twice the reversal in k-1 bits. */
  lemma {:induction false} RevLow(x: nat, k: nat)
    requires k > 0 && x < Pow2(k - 1)
    ensures Rev(x, k) == 2 * Rev(x, k - 1)
  {
    if k == 1 {
      RevZero(1);
      RevZero(0);
    } else {
      RevLow(x / 2, k - 1);
    }
  }

  /** Reversing twice gives the index back: the table is an involution on [0, 2^k). */
  lemma {:induction false} RevInvolution(i: nat, k: nat)
    requires i < Pow2(k)
    ensures Rev(Rev(i, k), k) == i
  {
    if k > 0 {
      var h := i / 2;
      assert i == 2 * h + i % 2;
      assert h < Pow2(k - 1);
      var r := Rev(h, k - 1);
      RevBound(h, k - 1);
      RevInvolution(h, k - 1);
      RevLow(r, k);
      assert Rev(r, k) == 2 * h;
      if i % 2 == 1 {
        var top := Pow2(k - 1);
        assert Rev(i, k) == r + top;
        RevStep(r, k - 1, k);
        assert k - 1 - (k - 1) == 0 && Pow2(0) == 1;
      }
    }
  }

  /** The table the FFT constructor builds for N = 2^k: entry i is Rev(i, k). */
  function RevTable(k: nat): (t: seq<nat>)
    ensures |t| == Pow2(k)
  {
    seq(Pow2(k), (i: int) requires 0 <= i => Rev(i, k))
  }

  /**
   * The table is a permutation of 0 .. N-1: every entry is below N, no two entries coincide,
   * every value below N occurs, and applying the table twice is the identity.
   */
  lemma RevTableIsPermutation(k: nat)
    ensures forall i :: 0 <= i < |RevTable(k)| ==> RevTable(k)[i] < Pow2(k)
    ensures forall i, j :: 0 <= i < j < |RevTable(k)| ==> RevTable(k)[i] != RevTable(k)[j]
    ensures forall v :: 0 <= v < Pow2(k) ==> v in RevTable(k)
    ensures forall i :: 0 <= i < |RevTable(k)| ==> RevTable(k)[RevTable(k)[i]] == i
  {
    var t := RevTable(k);
    forall i | 0 <= i < |t| ensures t[i] < Pow2(k) && t[t[i]] == i {
      RevBound(i, k);
      RevInvolution(i, k);
    }
    forall i, j | 0 <= i < j < |t| ensures t[i] != t[j] {
      RevInvolution(i, k);
      RevInvolution(j, k);
    }
    forall v | 0 <= v < Pow2(k) ensures v in t {
      RevBound(v, k);
      RevInvolution(v, k);
      assert t[Rev(v, k)] == v;
    }
  }
}
