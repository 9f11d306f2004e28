/** Hexadecimal CPU masks: which of the 512 thread slots a mask selects. */
module CpuMask {
  import opened Common

  /** `GGML_MAX_N_THREADS`. */
  const MAX_THREADS := 512

  /** The digits of a mask: without the prefix, and no more than 128 of them. */
  function Digits(mask: string): (ds: string)
    ensures |ds| <= 128
  {
    var s := if |mask| >= 2 && mask[..2] == "0x" then mask[2..] else mask;
    if |s| > 128 then s[..128] else s
  }

  /** How many leading digits are hexadecimal. */
  function Valid(ds: string): (n: nat)
    ensures n <= |ds|
  {
    if ds == "" || DigitValue(ds[0]) < 0 then 0 else 1 + Valid(ds[1..])
  }

  lemma {:induction false} ValidAt(ds: string, j: nat)
    requires j < |ds|
    ensures j < Valid(ds) ==> DigitValue(ds[j]) >= 0
    ensures j == Valid(ds) ==> DigitValue(ds[j]) < 0
  {
    if DigitValue(ds[0]) >= 0 && j > 0 {
      ValidAt(ds[1..], j - 1);
    }
  }

  // ---------- the number ----------

  function Pow2(n: nat): (p: nat)
    ensures p > 0
  {
    if n == 0 then 1 else 2 * Pow2(n - 1)
  }

  /** The number a row of digits stands for. */
  function Value(ds: string): nat
    requires Valid(ds) == |ds|
  {
    if ds == "" then 0
    else
      ValidInit(ds);
      16 * Value(ds[..|ds| - 1]) + DigitValue(ds[|ds| - 1])
  }

  lemma {:induction false} ValidInit(ds: string)
    requires ds != "" && Valid(ds) == |ds|
    ensures Valid(ds[..|ds| - 1]) == |ds| - 1 && DigitValue(ds[|ds| - 1]) >= 0
  {
    if |ds| > 1 {
      ValidInit(ds[1..]);
      assert ds[..|ds| - 1][1..] == ds[1..][..|ds| - 2];
    }
  }

  predicate Bit(n: nat, i: nat) {
    n / Pow2(i) % 2 == 1
  }

  /** The digits select slot `i`. */
  predicate DigitBit(ds: string, i: nat) {
    i < 4 * |ds| && DigitValue(ds[|ds| - 1 - i / 4]) >= 0 && Bit(DigitValue(ds[|ds| - 1 - i / 4]), i % 4)
  }

  lemma LowHalves(high: nat, low: nat)
    ensures (16 * high + low) / 2 == 8 * high + low / 2 && (16 * high + low) / 4 == 4 * high + low / 4
    ensures (16 * high + low) / 8 == 2 * high + low / 8
  {
  }

  lemma BitIs(n: nat, i: nat, p: nat)
    requires p > 0 && Pow2(i) == p
    ensures Bit(n, i) <==> n / p % 2 == 1
  {
  }

  lemma LowBits(high: nat, low: nat, i: nat)
    requires low < 16 && i < 4
    ensures Bit(16 * high + low, i) == Bit(low, i)
  {
    hide Bit, Pow2;
    SmallPowers();
    LowQuotients(high, low);
    var p := if i == 0 then 1 else if i == 1 then 2 else if i == 2 then 4 else 8;
    BitIs(16 * high + low, i, p);
    BitIs(low, i, p);
  }

  lemma EvenPlus(h: nat, x: nat)
    ensures (2 * h + x) % 2 == x % 2
  {
  }

  lemma LowQuotients(high: nat, low: nat)
    ensures (16 * high + low) / 1 % 2 == low / 1 % 2 && (16 * high + low) / 2 % 2 == low / 2 % 2
    ensures (16 * high + low) / 4 % 2 == low / 4 % 2 && (16 * high + low) / 8 % 2 == low / 8 % 2
  {
    LowHalves(high, low);
    EvenPlus(8 * high, low);
    EvenPlus(4 * high, low / 2);
    EvenPlus(2 * high, low / 4);
    EvenPlus(high, low / 8);
  }

  lemma SmallPowers()
    ensures Pow2(0) == 1 && Pow2(1) == 2 && Pow2(2) == 4 && Pow2(3) == 8
  {
    assert Pow2(1) == 2 * Pow2(0) && Pow2(2) == 2 * Pow2(1) && Pow2(3) == 2 * Pow2(2);
  }

  lemma DivDiv(n: nat, p: nat)
    requires p > 0
    ensures n / (16 * p) == n / 16 / p
  {
    var q, r := n / 16 / p, n / 16 % p;
    Recompose(n, p, q, r, n % 16);
    DivModOf(q, 16 * p, 16 * r + n % 16);
  }

  lemma Recompose(n: nat, p: nat, q: nat, r: nat, low: nat)
    requires n / 16 == q * p + r && n % 16 == low
    ensures n == q * (16 * p) + (16 * r + low)
  {
  }

  lemma HighBits(high: nat, low: nat, i: nat)
    requires low < 16 && i >= 4
    ensures Bit(16 * high + low, i) == Bit(high, i - 4)
  {
    assert Pow2(i) == 2 * Pow2(i - 1) && Pow2(i - 1) == 2 * Pow2(i - 2);
    assert Pow2(i - 2) == 2 * Pow2(i - 3) && Pow2(i - 3) == 2 * Pow2(i - 4);
    DivDiv(16 * high + low, Pow2(i - 4));
  }

  lemma ZeroBits(i: nat)
    ensures !Bit(0, i)
  {
  }

  /** The slots the digits select are the bits of the number they stand for. */
  lemma {:induction false} DigitBitIsBit(ds: string, i: nat)
    requires Valid(ds) == |ds|
    ensures DigitBit(ds, i) <==> Bit(Value(ds), i)
    decreases |ds|
  {
    hide Valid;
    if ds == "" {
      ZeroBits(i);
    } else {
      ValidInit(ds);
      var init, last := ds[..|ds| - 1], DigitValue(ds[|ds| - 1]);
      if i < 4 {
        LowBits(Value(init), last, i);
      } else {
        HighBits(Value(init), last, i);
        DigitBitIsBit(init, i - 4);
        assert i / 4 - 1 == (i - 4) / 4 && i % 4 == (i - 4) % 4;
      }
    }
  }

  // ---------- parsing ----------

  /** Slot `i` is set by the first `k` digits. */
  predicate SetBy(ds: string, k: nat, i: nat) {
    |ds| - 1 - i / 4 < k && DigitBit(ds, i)
  }

  lemma FourBits(d: int)
    requires 0 <= d < 16
    ensures (Bit(d, 3) <==> d / 8 % 2 == 1) && (Bit(d, 2) <==> d / 4 % 2 == 1)
    ensures (Bit(d, 1) <==> d / 2 % 2 == 1) && (Bit(d, 0) <==> d % 2 == 1)
  {
    SmallPowers();
  }

  /** Digit `k` and the four slots it decides. */
  lemma SetByNext(ds: string, k: nat, i: nat, n: nat)
    requires k < |ds| && n == 4 * (|ds| - k) - 1 && DigitValue(ds[k]) >= 0
    ensures SetBy(ds, k + 1, i) <==> SetBy(ds, k, i) || (n - 3 <= i <= n && Bit(DigitValue(ds[k]), i + 3 - n))
    ensures n - 3 <= i <= n ==> !SetBy(ds, k, i)
  {
  }

  /** What one digit does to all slots. */
  lemma SetByDigit(ds: string, k: nat, n: nat)
    requires k < |ds| && n == 4 * (|ds| - k) - 1 && DigitValue(ds[k]) >= 0
    ensures forall i: nat ::
              SetBy(ds, k + 1, i) <==> SetBy(ds, k, i) || (n - 3 <= i <= n && Bit(DigitValue(ds[k]), i + 3 - n))
    ensures !SetBy(ds, k, n) && !SetBy(ds, k, n - 1) && !SetBy(ds, k, n - 2) && !SetBy(ds, k, n - 3)
  {
    forall i: nat
      ensures SetBy(ds, k + 1, i) <==> SetBy(ds, k, i) || (n - 3 <= i <= n && Bit(DigitValue(ds[k]), i + 3 - n))
    {
      SetByNext(ds, k, i, n);
    }
    SetByNext(ds, k, n, n);
    SetByNext(ds, k, n - 1, n);
    SetByNext(ds, k, n - 2, n);
    SetByNext(ds, k, n - 3, n);
  }

  /** `boolmask[n] = boolmask[n] || (id & 8)` and the three below it. */
  method SetFour(boolmask: array<bool>, n: nat, id: nat)
    requires 3 <= n < boolmask.Length && id < 16
    modifies boolmask
    ensures forall j | 0 <= j < boolmask.Length ::
              boolmask[j] == (old(boolmask[j]) || (n - 3 <= j <= n && Bit(id, j + 3 - n)))
  {
    FourBits(id);
    hide Bit;
    boolmask[n] := boolmask[n] || id / 8 % 2 == 1;
    boolmask[n - 1] := boolmask[n - 1] || id / 4 % 2 == 1;
    boolmask[n - 2] := boolmask[n - 2] || id / 2 % 2 == 1;
    boolmask[n - 3] := boolmask[n - 3] || id % 2 == 1;
  }

  /** Before the first digit no slot is set, after all of them the bits of the number are. */
  lemma SetByEnds(ds: string)
    ensures forall j: nat :: !SetBy(ds, 0, j)
    ensures Valid(ds) == |ds| ==> forall j: nat :: SetBy(ds, |ds|, j) <==> Bit(Value(ds), j)
  {
    if Valid(ds) == |ds| {
      forall j: nat
        ensures SetBy(ds, |ds|, j) <==> Bit(Value(ds), j)
      {
        DigitBitIsBit(ds, j);
      }
    }
  }

  /**
   * Sets the slots whose bit is 1 and changes no other; an invalid digit ends the parse with the slots of
   * the digits before it already set.
   */
  method ParseCpuMask(mask: string, boolmask: array<bool>) returns (ok: bool)
    requires boolmask.Length == MAX_THREADS
    modifies boolmask
    ensures ok <==> Valid(Digits(mask)) == |Digits(mask)|
    ensures forall i | 0 <= i < MAX_THREADS ::
              boolmask[i] == (old(boolmask[i]) || SetBy(Digits(mask), Valid(Digits(mask)), i))
    ensures ok ==> forall i | 0 <= i < MAX_THREADS ::
              boolmask[i] == (old(boolmask[i]) || Bit(Value(Digits(mask)), i))
  {
    var startI := 0;
    if |mask| >= 2 && mask[..2] == "0x" {
      startI := 2;
    }
    var numDigits := |mask| - startI;
    if numDigits > 128 {
      numDigits := 128;
    }
    var endI := numDigits + startI;
    ghost var ds := Digits(mask);
    assert ds == mask[startI..endI];
    SetByEnds(ds);
    hide SetBy, Bit, Value, Digits;
    var i, n := startI, numDigits * 4 - 1;
    while i < endI
      invariant startI <= i <= endI && n == 4 * (endI - i) - 1 && i - startI <= Valid(ds)
      invariant forall j | 0 <= j < MAX_THREADS :: boolmask[j] == (old(boolmask[j]) || SetBy(ds, i - startI, j))
    {
      ghost var k := i - startI;
      ValidAt(ds, k);
      assert ds[k] == mask[i];
      var id := DigitValue(mask[i]);
      if id < 0 {
        return false;
      }
      SetByDigit(ds, k, n);
      SetFour(boolmask, n, id);
      i, n := i + 1, n - 4;
    }
    ok := true;
  }

  /** The prefix does not count, and no more than 128 digits do. */
  lemma PrefixIgnored(ds: string)
    ensures Digits("0x" + ds) == ds[..if |ds| > 128 then 128 else |ds|]
    ensures !("0x" <= ds) ==> Digits(ds) == Digits("0x" + ds)
  {
    assert ("0x" + ds)[..2] == "0x" && ("0x" + ds)[2..] == ds;
    if |ds| >= 2 {
      assert ds[..2] == "0x" ==> "0x" <= ds;
    }
  }
}
