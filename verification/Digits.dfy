// Positional notation in any base, most significant digit first. Bytes are
// digits in base 256, hex quantities in base 16, block numbers in base 10.
module Digits {

  predicate AreDigits(ds: seq<nat>, base: nat) {
    forall i :: 0 <= i < |ds| ==> ds[i] < base
  }

  function Pow(base: nat, e: nat): nat {
    if e == 0 then 1 else base * Pow(base, e - 1)
  }

  function Value(ds: seq<nat>, base: nat): nat {
    if |ds| == 0 then 0 else Value(ds[..|ds| - 1], base) * base + ds[|ds| - 1]
  }

  /** The digits of n without leading zeros; zero has none. */
  function Minimal(n: nat, base: nat): (ds: seq<nat>)
    requires base >= 2
    ensures AreDigits(ds, base)
    ensures |ds| > 0 ==> ds[0] != 0
    decreases n
  {
    if n == 0 then [] else
      DivSmaller(n, base);
      Minimal(n / base, base) + [n % base]
  }

  /** The low `len` digits of n, zero-padded. */
  function Fixed(n: nat, base: nat, len: nat): (ds: seq<nat>)
    requires base >= 2
    ensures |ds| == len && AreDigits(ds, base)
  {
    if len == 0 then [] else Fixed(n / base, base, len - 1) + [n % base]
  }

  lemma DivSmaller(n: nat, base: nat)
    requires n > 0 && base >= 2
    ensures n / base < n
  {
    assert n == (n / base) * base + n % base;
    if n / base >= n {
      MulMonotone(2, base, n / base);
    }
  }

  lemma MulMonotone(a: int, b: int, c: nat)
    requires a <= b
    ensures a * c <= b * c
  {
  }

  lemma DivModUnique(q: nat, r: nat, base: nat)
    requires r < base
    ensures (q * base + r) / base == q && (q * base + r) % base == r
  {
    var n := q * base + r;
    assert n == (n / base) * base + n % base;
    if q < n / base {
      MulMonotone(q + 1, n / base, base);
    } else if n / base < q {
      MulMonotone(n / base + 1, q, base);
    }
  }

  lemma ValueAppend(ds: seq<nat>, d: nat, base: nat)
    ensures Value(ds + [d], base) == Value(ds, base) * base + d
  {
    assert (ds + [d])[..|ds|] == ds;
  }

  lemma {:induction false} ValueOfMinimal(n: nat, base: nat)
    requires base >= 2
    ensures Value(Minimal(n, base), base) == n
    decreases n
  {
    if n > 0 {
      DivSmaller(n, base);
      ValueOfMinimal(n / base, base);
      ValueAppend(Minimal(n / base, base), n % base, base);
      DivMod(n, base);
    }
  }

  lemma {:induction false} MinimalOfValue(ds: seq<nat>, base: nat)
    requires base >= 2 && AreDigits(ds, base)
    requires |ds| > 0 ==> ds[0] != 0
    ensures Minimal(Value(ds, base), base) == ds
  {
    if |ds| > 0 {
      var front, d := ds[..|ds| - 1], ds[|ds| - 1];
      MinimalOfValue(front, base);
      DivModUnique(Value(front, base), d, base);
      if |ds| == 1 {
        assert ds == [d] && front == [];
      } else {
        ValuePositive(front, base);
        MulMonotone(1, Value(front, base), base);
      }
      assert ds == front + [d];
    }
  }

  lemma {:induction false} ValuePositive(ds: seq<nat>, base: nat)
    requires base >= 2 && |ds| > 0 && ds[0] != 0
    ensures Value(ds, base) > 0
  {
    if |ds| > 1 {
      ValuePositive(ds[..|ds| - 1], base);
      MulMonotone(1, Value(ds[..|ds| - 1], base), base);
    }
  }

  lemma StepBound(v: nat, p: nat, d: nat, base: nat)
    requires d < base
    ensures v < p <==> v * base + d < base * p
  {
    if v < p {
      MulMonotone(v + 1, p, base);
    } else {
      MulMonotone(p, v, base);
    }
  }

  lemma {:induction false} ValueBound(ds: seq<nat>, base: nat)
    requires base >= 2 && AreDigits(ds, base)
    ensures Value(ds, base) < Pow(base, |ds|)
  {
    if |ds| > 0 {
      var front := ds[..|ds| - 1];
      ValueBound(front, base);
      StepBound(Value(front, base), Pow(base, |front|), ds[|ds| - 1], base);
    }
  }

  /** Fixed-width digits are determined by their value. */
  lemma {:induction false} FixedOfValue(ds: seq<nat>, base: nat)
    requires base >= 2 && AreDigits(ds, base)
    ensures Fixed(Value(ds, base), base, |ds|) == ds
  {
    if |ds| > 0 {
      var front, d := ds[..|ds| - 1], ds[|ds| - 1];
      FixedOfValue(front, base);
      DivModUnique(Value(front, base), d, base);
      assert ds == front + [d];
    }
  }

  /** Left-pad with zeros up to `len` digits, or drop leading digits down to it. */
  function PadOrCrop(ds: seq<nat>, len: nat): (r: seq<nat>)
    ensures |r| == len
  {
    if |ds| > len then ds[|ds| - len..] else seq(len - |ds|, i => 0) + ds
  }

  lemma PadOrCropStep(ds: seq<nat>, len: nat)
    requires len > 0
    ensures |ds| == 0 ==> PadOrCrop(ds, len) == PadOrCrop(ds, len - 1) + [0]
    ensures |ds| > 0 ==> PadOrCrop(ds, len) == PadOrCrop(ds[..|ds| - 1], len - 1) + [ds[|ds| - 1]]
  {
  }

  /** Padding with zeros, or cropping, to a width keeps the low digits. */
  lemma {:induction false} FixedOfPadOrCrop(ds: seq<nat>, base: nat, len: nat)
    requires base >= 2 && AreDigits(ds, base)
    ensures Fixed(Value(ds, base), base, len) == PadOrCrop(ds, len)
  {
    hide PadOrCrop;
    if len > 0 {
      PadOrCropStep(ds, len);
      if |ds| == 0 {
        FixedOfPadOrCrop(ds, base, len - 1);
        DivModUnique(0, 0, base);
      } else {
        FixedOfPadOrCrop(ds[..|ds| - 1], base, len - 1);
        DivModUnique(Value(ds[..|ds| - 1], base), ds[|ds| - 1], base);
      }
    } else {
      assert PadOrCrop(ds, 0) == [];
    }
  }

  /** q blocks of p, and v more. */
  function MulAdd(q: nat, p: nat, v: nat): nat {
    q * p + v
  }

  lemma MulAddStep(n: nat, q: nat, p: nat, v: nat, base: nat)
    requires base >= 1 && n / base == MulAdd(q, p, v)
    ensures n == MulAdd(q, base * p, v * base + n % base)
  {
    DivMod(n, base);
    assert (q * p + v) * base == (q * p) * base + v * base;
    MulSwap(q, p, base);
  }

  lemma MulSwap(q: nat, p: nat, base: nat)
    ensures (q * p) * base == q * (base * p)
  {
  }

  /** The part of n above its low `len` digits. */
  function High(n: nat, base: nat, len: nat): nat
    requires base >= 1
  {
    if len == 0 then n else High(n / base, base, len - 1)
  }

  lemma {:induction false} FixedMod(n: nat, base: nat, len: nat)
    requires base >= 2
    ensures n == MulAdd(High(n, base, len), Pow(base, len), Value(Fixed(n, base, len), base))
  {
    if len == 0 {
      assert Value([], base) == 0;
    } else {
      hide MulAdd;
      FixedMod(n / base, base, len - 1);
      var rest := Fixed(n / base, base, len - 1);
      ValueAppend(rest, n % base, base);
      MulAddStep(n, High(n, base, len), Pow(base, len - 1), Value(rest, base), base);
    }
  }

  lemma {:induction false} MinimalLength(n: nat, base: nat, len: nat)
    requires base >= 2
    ensures |Minimal(n, base)| <= len <==> n < Pow(base, len)
    decreases len
  {
    if n == 0 {
      PowPositive(base, len);
    } else if len > 0 {
      MinimalLength(n / base, base, len - 1);
      DivSmaller(n, base);
      StepBound(n / base, Pow(base, len - 1), n % base, base);
      DivMod(n, base);
    }
  }

  lemma DivMod(n: nat, base: nat)
    requires base >= 1
    ensures n == (n / base) * base + n % base
  {
  }

  lemma {:induction false} PowPositive(base: nat, e: nat)
    requires base >= 1
    ensures Pow(base, e) >= 1
  {
    if e > 0 {
      PowPositive(base, e - 1);
      MulMonotone(1, base, Pow(base, e - 1));
    }
  }

  lemma FixedIsMod(n: nat, base: nat, len: nat)
    requires base >= 2
    ensures Pow(base, len) >= 1 && Value(Fixed(n, base, len), base) == n % Pow(base, len)
  {
    PowPositive(base, len);
    FixedMod(n, base, len);
    ValueBound(Fixed(n, base, len), base);
    DivModUnique(High(n, base, len), Value(Fixed(n, base, len), base), Pow(base, len));
  }

  /** Two numbers have the same low `len` digits exactly when they are congruent. */
  lemma SameFixed(m: nat, n: nat, base: nat, len: nat)
    requires base >= 2
    ensures Pow(base, len) >= 1
    ensures Fixed(m, base, len) == Fixed(n, base, len) <==> m % Pow(base, len) == n % Pow(base, len)
  {
    FixedIsMod(m, base, len);
    FixedIsMod(n, base, len);
    FixedOfValue(Fixed(m, base, len), base);
    FixedOfValue(Fixed(n, base, len), base);
  }
}
