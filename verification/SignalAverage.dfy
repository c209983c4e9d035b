/** The mean of signal readings in dBm, computed in linear space with 16.16 fixed-point factors
    (iwlwifi/iwl-utils.c:86-194). */
module SignalAverage {

  type u8 = x: nat | x < 0x100
  type u32 = x: nat | x < 0x1_0000_0000

  const ONE := 0x10000
  const HALF_DB_DOWN := 0xe429 // ONE at -0.5 dB
  const INVALID := 0xff
  const TWO32 := 0x1_0000_0000

  // 2^32 * 10^(-(i+1)/10)
  const DB_TO_VAL: seq<nat> := [
    0xcb59185e, 0xa1866ba8, 0x804dce7a, 0x65ea59fe, 0x50f44d89,
    0x404de61f, 0x331426af, 0x2892c18b, 0x203a7e5b, 0x1999999a
  ]

  function Min(a: nat, b: nat): nat { if a <= b then a else b }

  // A value lowered by db decibels, at most ten at a time.
  function Lowered(value: nat, db: nat): (r: nat)
    ensures r <= value
    decreases db
  {
    if value == 0 || db == 0 then value
    else
      var change := Min(db, 10);
      StepShrinks(value, change);
      Lowered(value * DB_TO_VAL[change - 1] / TWO32, db - change)
  }

  lemma StepShrinks(value: nat, change: nat)
    requires 1 <= change <= 10
    ensures value * DB_TO_VAL[change - 1] / TWO32 <= value
  {
    assert value * DB_TO_VAL[change - 1] <= value * TWO32;
  }

  /** iwl_div_by_db. */
  method DivByDb(value: u32, db: u8) returns (r: u32)
    ensures r == Lowered(value, db)
  {
    r := value;
    var left: u8 := db;
    while r > 0 && left > 0
      invariant Lowered(r, left) == Lowered(value, db)
      decreases left
    {
      var change := Min(left, 10);
      StepShrinks(r, change);
      r := r * DB_TO_VAL[change - 1] / TWO32;
      left := left - change;
    }
  }

  // Readings are stored negated.
  function Dbm(v: u8): int { 0 - v }

  // The running sum: factor / 2^16 * 10^(magnitude / 10) mW over `count` readings.
  datatype Sum = Sum(factor: nat, magnitude: int, count: nat)

  function AddReading(s: Sum, v: u8): Sum {
    if v == INVALID then s
    else if Dbm(v) <= s.magnitude then Sum(s.factor + Lowered(ONE, s.magnitude - Dbm(v)), s.magnitude, s.count + 1)
    else Sum(Lowered(s.factor, Dbm(v) - s.magnitude) + ONE, Dbm(v), s.count + 1)
  }

  function SumOf(vs: seq<u8>): Sum {
    if vs == [] then Sum(0, -128, 0) else AddReading(SumOf(vs[..|vs| - 1]), vs[|vs| - 1])
  }

  /** No sum of at most 255 readings overflows, and the base never leaves [-128, 0]. */
  lemma {:induction false} SumFits(vs: seq<u8>)
    ensures var s := SumOf(vs); s.count <= |vs| && s.factor <= s.count * ONE && -128 <= s.magnitude <= 0
  {
    if vs != [] {
      SumFits(vs[..|vs| - 1]);
    }
  }

  // The number of whole decibels by which a mean factor is below one, to the nearest.
  predicate Steps(average: nat, i: nat) {
    Lowered(HALF_DB_DOWN, i) <= average && forall j | 0 <= j < i :: average < Lowered(HALF_DB_DOWN, j)
  }

  function Clamp(x: int, lo: int, hi: int): int {
    if x < lo then lo else if x > hi then hi else x
  }

  function Average(s: Sum): nat
    requires s.count > 0
  {
    s.factor / s.count
  }

  // The result for a sum: its base lowered by the mean factor's whole decibels.
  ghost predicate IsRounded(s: Sum, r: int)
    requires s.count > 0
  {
    exists i | 0 <= i <= 50 :: Steps(Average(s), i) && r == Clamp(s.magnitude - i, -128, 0)
  }

  ghost predicate IsMean(vs: seq<u8>, r: int) {
    if SumOf(vs).count == 0 then r == 0 else IsRounded(SumOf(vs), r)
  }

  /** iwl_average_neg_dbm: every intermediate value fits its type, and the search ends within 50
      steps. */
  method AverageNegDbm(vs: seq<u8>) returns (r: int)
    requires |vs| <= 255
    ensures IsMean(vs, r) && -128 <= r <= 0
  {
    hide Lowered, IsRounded;
    var magnitude: int := -128;
    var factor: u32 := 0;
    var count: u8 := 0;
    for i := 0 to |vs|
      invariant Sum(factor, magnitude, count) == SumOf(vs[..i])
    {
      SumFits(vs[..i + 1]);
      SumFits(vs[..i]);
      assert vs[..i + 1][..i] == vs[..i];
      if vs[i] != INVALID {
        var valFactor: u32 := ONE;
        var valMagnitude := Dbm(vs[i]);
        if valMagnitude <= magnitude {
          var divDb: u8 := magnitude - valMagnitude;
          valFactor := DivByDb(valFactor, divDb);
        } else {
          var divDb: u8 := valMagnitude - magnitude;
          factor := DivByDb(factor, divDb);
          magnitude := valMagnitude;
        }
        factor := factor + valFactor;
        count := count + 1;
      }
    }
    assert vs[..|vs|] == vs;
    SumFits(vs);
    if count == 0 { return 0; }
    r := Rounded(magnitude, factor, count);
  }

  method Rounded(magnitude: int, factor: u32, count: u8) returns (r: int)
    requires count > 0
    ensures IsRounded(Sum(factor, magnitude, count), r) && -128 <= r <= 0
  {
    QuotientFits(factor, count);
    var average: u32 := factor / count;
    var i := WholeSteps(average);
    hide Lowered, Steps;
    assert average == Average(Sum(factor, magnitude, count));
    r := Clamp(magnitude - i, -128, 0);
  }

  lemma QuotientFits(factor: nat, count: nat)
    requires count > 0
    ensures factor / count <= factor
  {
    var q := factor / count;
    assert q * count <= factor;
    if q > 0 { ScaleInt(q, 1, count); }
  }

  /** The search for the first whole decibel whose threshold the factor reaches. */
  method WholeSteps(average: u32) returns (i: nat)
    ensures i <= 50 && Steps(average, i)
  {
    LastStep();
    hide Lowered;
    i := 0;
    var bound: u32 := DivByDb(HALF_DB_DOWN, 0);
    while average < bound
      invariant i <= 50 && bound == Lowered(HALF_DB_DOWN, i)
      invariant forall j | 0 <= j < i :: average < Lowered(HALF_DB_DOWN, j)
      decreases 50 - i
    {
      i := i + 1;
      bound := DivByDb(HALF_DB_DOWN, i);
    }
  }

  // Fifty decibels leave nothing.
  lemma LastStep()
    ensures Lowered(HALF_DB_DOWN, 50) == 0
  {
    LoweredOnce(HALF_DB_DOWN, 50);
    LoweredOnce(5840, 40);
    LoweredOnce(584, 30);
    LoweredOnce(58, 20);
    LoweredOnce(5, 10);
    hide Lowered;
  }

  // ---------- bounds ----------

  predicate Valid(v: u8) { v != INVALID }

  ghost predicate Strongest(vs: seq<u8>, v: u8) {
    v in vs && Valid(v) && forall w | w in vs && Valid(w) :: v <= w
  }

  ghost predicate Weakest(vs: seq<u8>, v: u8) {
    v in vs && Valid(v) && forall w | w in vs && Valid(w) :: w <= v
  }

  // What a reading of ONE keeps at least after losing d decibels, in whatever steps.
  function Kept(d: nat): int {
    if d == 0 then ONE else Kept(d - 1) * DB_TO_VAL[0] / TWO32 - 1
  }

  lemma {:induction false} KeptBound(d: nat)
    ensures Kept(d) <= ONE
  {
    if d > 0 { KeptBound(d - 1); }
  }

  // One table entry is as good as single steps, up to its rounding.
  lemma TableSteps(k: nat)
    requires 1 <= k < 10
    ensures DB_TO_VAL[k - 1] * DB_TO_VAL[0] <= (DB_TO_VAL[k] + 1) * TWO32
  {
  }

  lemma {:induction false} KeptSteps(d: nat, k: nat)
    requires 1 <= k <= 10 && 0 <= Kept(d)
    ensures Kept(d + k) * TWO32 <= Kept(d) * DB_TO_VAL[k - 1]
  {
    var w := Kept(d);
    KeptBound(d);
    var t0 := DB_TO_VAL[0];
    if k == 1 {
      assert Kept(d + 1) == w * t0 / TWO32 - 1;
    } else {
      KeptSteps(d, k - 1);
      TableSteps(k - 1);
      var v := Kept(d + k - 1);
      var t, u := DB_TO_VAL[k - 2], DB_TO_VAL[k - 1];
      assert Kept(d + k) == v * t0 / TWO32 - 1;
      Chain(v, w, t, u, t0);
    }
  }

  lemma Chain(v: int, w: nat, t: nat, u: nat, t0: nat)
    requires v * TWO32 <= w * t && t * t0 <= (u + 1) * TWO32 && w <= ONE
    ensures (v * t0 / TWO32 - 1) * TWO32 <= w * u
  {
    assert v * TWO32 * t0 <= w * t * t0 && w * (t * t0) <= w * ((u + 1) * TWO32);
    assert v * t0 <= w * (u + 1);
  }

  // And single steps lose at most ten units against one table entry.
  lemma {:induction false} KeptLoss(d: nat, k: nat)
    requires 1 <= k <= 10 && 0 <= Kept(d)
    ensures Kept(d + k) * TWO32 >= (Kept(d) * DB_TO_VAL[k - 1]) - 10 * TWO32
  {
    var w := Kept(d);
    KeptBound(d);
    var t0 := DB_TO_VAL[0];
    if k == 1 {
      assert Kept(d + 1) == w * t0 / TWO32 - 1;
    } else {
      KeptLoss(d, k - 1);
      var v := Kept(d + k - 1);
      var t, u := DB_TO_VAL[k - 2], DB_TO_VAL[k - 1];
      assert t * t0 >= (u - 1) * TWO32;
      assert Kept(d + k) == v * t0 / TWO32 - 1;
      ChainLoss(v, w, t, u, t0);
    }
  }

  lemma ChainLoss(v: int, w: nat, t: nat, u: nat, t0: nat)
    requires v * TWO32 >= w * t - 10 * TWO32 && t * t0 >= (u - 1) * TWO32 && w <= ONE && t0 == DB_TO_VAL[0]
    ensures (v * t0 / TWO32 - 1) * TWO32 >= w * u - 10 * TWO32
  {
    assert v * TWO32 * t0 >= (w * t - 10 * TWO32) * t0 && w * (t * t0) >= w * ((u - 1) * TWO32);
    assert v * t0 >= w * (u - 1) - 10 * t0;
  }

  lemma KeptZero()
    ensures Kept(0) == ONE
  {
  }

  lemma KeptAnchors()
    ensures Kept(10) >= 6544 && Kept(20) >= 644
  {
    hide Kept, Lowered;
    KeptZero();
    KeptLoss(0, 10);
    KeptLoss(10, 10);
  }

  lemma TableRange(k: nat)
    requires 1 <= k <= 10
    ensures DB_TO_VAL[k - 1] >= DB_TO_VAL[9] && (k <= 4 ==> DB_TO_VAL[k - 1] >= DB_TO_VAL[3])
  {
  }

  // Lowering by at most ten decibels is one table step; beyond, the first step takes ten.
  lemma LoweredOnce(value: nat, d: nat)
    requires value > 0
    ensures d <= 10 ==> Lowered(value, d) <= value * (if d == 0 then TWO32 else DB_TO_VAL[d - 1]) / TWO32
    ensures d >= 10 ==> Lowered(value, d) == Lowered(value * DB_TO_VAL[9] / TWO32, d - 10)
  {
  }

  // The -0.5 dB threshold falls at least as fast, for up to 24 dB.
  lemma KeptEnough(d: nat)
    requires d <= 24
    ensures Kept(d) >= Lowered(HALF_DB_DOWN, d)
  {
    hide Kept, Lowered;
    KeptAnchors();
    KeptZero();
    LoweredOnce(HALF_DB_DOWN, d);
    if d < 10 {
      Block(0, d, HALF_DB_DOWN);
    } else {
      LoweredOnce(5840, d - 10);
      if d < 20 {
        Block(10, d - 10, 5840);
      } else {
        Block(20, d - 20, 584);
      }
    }
  }

  lemma KeptPositive(d: nat)
    requires d <= 24
    ensures Kept(d) > 0
  {
    hide Kept, Lowered;
    KeptAnchors();
    KeptZero();
    if d < 10 { Block(0, d, 1); } else if d < 20 { Block(10, d - 10, 1); } else { Block(20, d - 20, 1); }
  }

  // Within a block of ten decibels: starting far enough above a value, it stays above it, lowered.
  lemma Block(d: nat, k: nat, value: nat)
    requires k <= 10 && value > 0 && (Kept(d) - value >= 100 || (Kept(d) - value >= 60 && k <= 4))
    ensures Kept(d + k) >= Lowered(value, k) && Kept(d + k) > 0
  {
    LoweredOnce(value, k);
    hide Kept, Lowered;
    if k > 0 {
      KeptLoss(d, k);
      TableRange(k);
      BlockProduct(Kept(d + k), Kept(d), value, DB_TO_VAL[k - 1], k);
    }
  }

  lemma BlockProduct(x: int, w: int, value: nat, t: nat, k: nat)
    requires x * TWO32 >= w * t - 10 * TWO32 && DB_TO_VAL[9] <= t
    requires w - value >= 100 || (w - value >= 60 && DB_TO_VAL[3] <= t)
    ensures x * TWO32 >= value * t && value * t / TWO32 <= x
  {
    assert (w - value) * t >= 10 * TWO32 by {
      if w - value >= 100 { assert (w - value) * t >= 100 * DB_TO_VAL[9]; } else { assert (w - value) * t >= 60 * DB_TO_VAL[3]; }
    }
    assert w * t == value * t + (w - value) * t;
  }

  // A sum of n readings that all kept enough keeps enough when it is lowered further.
  lemma {:induction false} LoweredKeeps(s: nat, n: nat, d: nat, c: nat)
    requires n >= 1 && d + c <= 24 && s >= n * Kept(d)
    ensures Lowered(s, c) >= n * Kept(d + c)
    decreases c
  {
    if c == 0 {
      assert Lowered(s, c) == s;
      hide *;
    } else {
      var k := Min(c, 10);
      hide Lowered, Kept, OneStep;
      KeepPositive(s, n, d);
      FirstStep(s, c);
      KeepStep(s, n, d, k);
      LoweredKeeps(OneStep(s, k), n, d + k, c - k);
    }
  }

  // One step of the loop.
  function OneStep(s: nat, k: nat): nat
    requires 1 <= k <= 10
  {
    s * DB_TO_VAL[k - 1] / TWO32
  }

  lemma FirstStep(s: nat, c: nat)
    requires s > 0 && c > 0
    ensures Lowered(s, c) == Lowered(OneStep(s, Min(c, 10)), c - Min(c, 10))
  {
  }

  lemma KeepPositive(s: nat, n: nat, d: nat)
    requires n >= 1 && d <= 24 && s >= n * Kept(d)
    ensures s > 0
  {
    KeptPositive(d);
    hide Kept;
    AtLeastOne(n, Kept(d));
  }

  // One table step.
  lemma KeepStep(s: nat, n: nat, d: nat, k: nat)
    requires 1 <= k <= 10 && d + k <= 24 && s >= n * Kept(d)
    ensures OneStep(s, k) >= n * Kept(d + k)
  {
    KeptPositive(d);
    hide Kept;
    KeptSteps(d, k);
    KeepProduct(s, n, Kept(d), Kept(d + k), DB_TO_VAL[k - 1]);
  }

  lemma AtLeastOne(n: int, w: int)
    requires n >= 1 && w >= 1
    ensures n * w >= 1
  {
  }

  lemma KeepProduct(s: nat, n: nat, w: int, v: int, t: nat)
    requires s >= n * w && v * TWO32 <= w * t
    ensures s * t / TWO32 >= n * v
  {
    assert s * t >= n * w * t && n * (w * t) >= n * (v * TWO32);
    assert s * t >= (n * v) * TWO32;
  }

  // ---------- what the sum keeps of its readings ----------

  lemma KeptDecreases(d: nat, e: nat)
    requires d <= e <= 24
    ensures Kept(e) <= Kept(d)
  {
    if d < e {
      KeptPositive(e - 1);
      KeptDecreases(d, e - 1);
    }
  }

  // One more reading keeps the shares of all.
  lemma AddKeeps(s: Sum, v: u8, w: u8)
    requires Valid(v) && v <= w && AddReading(s, v).magnitude + w <= 24 && s.factor <= s.count * ONE
    requires s.count >= 1 && s.magnitude + w <= 24 ==> 0 <= s.magnitude + w && s.factor >= s.count * Kept(s.magnitude + w)
    ensures var s' := AddReading(s, v); 0 <= s'.magnitude + w && s'.factor >= s'.count * Kept(s'.magnitude + w)
  {
    hide Lowered, Kept;
    var s' := AddReading(s, v);
    var d := s'.magnitude + w;
    var k := Kept(d);
    KeptZero();
    KeptDecreases(0, d);
    assert s'.count * k == s.count * k + k;
    if Dbm(v) <= s.magnitude {
      LoweredKeeps(ONE, 1, 0, s.magnitude + v);
      KeptDecreases(s.magnitude + v, d);
    } else if s.count >= 1 {
      LoweredKeeps(s.factor, s.count, s.magnitude + w, Dbm(v) - s.magnitude);
    }
  }

  // While no reading is more than 24 dB below the base, each has kept its share of the sum.
  lemma {:induction false} SumKeeps(vs: seq<u8>, w: u8)
    requires forall v | v in vs && Valid(v) :: v <= w
    requires SumOf(vs).count >= 1 && SumOf(vs).magnitude + w <= 24
    ensures var s := SumOf(vs); 0 <= s.magnitude + w && s.factor >= s.count * Kept(s.magnitude + w)
  {
    var n := |vs| - 1;
    var front, v := vs[..n], vs[n];
    assert vs == front + [v];
    var s := SumOf(front);
    SumFits(front);
    assert SumOf(vs) == AddReading(s, v);
    assert Lowered(0, 256) == 0;
    hide SumOf, Lowered, Kept;
    if s.count >= 1 && s.magnitude + w <= 24 { SumKeeps(front, w); }
    if Valid(v) { AddKeeps(s, v, w); }
  }

  // The base is the strongest reading down to -128, and that reading counts in full.
  lemma {:induction false} SumBase(vs: seq<u8>)
    ensures var s := SumOf(vs);
            && (s.count == 0 <==> forall v | v in vs :: !Valid(v))
            && (forall v | v in vs && Valid(v) :: Dbm(v) <= s.magnitude)
            && (s.magnitude == -128 || exists v :: v in vs && Valid(v) && Dbm(v) == s.magnitude)
            && ((exists v :: v in vs && Valid(v) && v <= 128) ==> s.factor >= ONE)
  {
    if vs != [] {
      var n := |vs| - 1;
      var front, v := vs[..n], vs[n];
      var s := SumOf(front);
      SumBase(front);
      SumFits(front);
      assert vs == front + [v];
      assert SumOf(vs) == AddReading(s, v) && Lowered(ONE, 0) == ONE;
      hide Lowered, SumOf;
      assert Valid(v) ==> v in vs;
    }
  }

  lemma {:induction false} SumOfEqual(vs: seq<u8>, v: u8)
    requires Valid(v) && v <= 128 && forall w | w in vs && Valid(w) :: w == v
    ensures var s := SumOf(vs); s.factor == s.count * ONE && s.magnitude == if s.count == 0 then -128 else Dbm(v)
  {
    if vs != [] {
      var n := |vs| - 1;
      assert vs == vs[..n] + [vs[n]] && (Valid(vs[n]) ==> vs[n] == v);
      SumOfEqual(vs[..n], v);
      var s := SumOf(vs[..n]);
      assert SumOf(vs) == AddReading(s, vs[n]);
      assert Lowered(ONE, 0) == ONE && Lowered(0, 128 - v) == 0;
    }
  }

  /** The mean lies between the weakest and the strongest reading (readings below -128 dBm count as
      -128), at most 24 dB below the strongest, and is exact when all readings agree. */
  lemma MeanBounds(vs: seq<u8>, r: int, a: u8, b: u8)
    requires |vs| <= 255 && IsMean(vs, r) && Strongest(vs, a) && Weakest(vs, b)
    ensures Clamp(Dbm(b), -128, 0) <= r <= Clamp(Dbm(a), -128, 0)
    ensures a <= 128 ==> Dbm(a) - 24 <= r
    ensures a == b ==> r == Clamp(Dbm(a), -128, 0)
  {
    var s := SumOf(vs);
    SumFits(vs);
    SumBase(vs);
    hide Lowered, Kept;
    var i :| 0 <= i <= 50 && Steps(Average(s), i) && r == Clamp(s.magnitude - i, -128, 0);
    if s.magnitude + b <= 24 {
      SumKeeps(vs, b);
      var d := s.magnitude + b;
      KeptEnough(d);
      AverageAtLeast(s.factor, s.count, Kept(d));
      assert i <= d;
    }
    if a <= 128 {
      AtMost24(s.factor, s.count);
      assert i <= 24;
    }
    if a == b && a <= 128 {
      SumOfEqual(vs, a);
      ZeroSteps(s.factor, s.count);
      assert i == 0;
    }
  }

  lemma ScaleInt(n: nat, a: int, b: int)
    requires a <= b
    ensures n * a <= n * b
  {
  }

  lemma AverageAtLeast(factor: nat, count: nat, x: int)
    requires count >= 1 && factor >= count * x
    ensures factor / count >= x
  {
    var q := factor / count;
    assert factor < count * (q + 1);
    if q < x { ScaleInt(count, q + 1, x); }
  }

  lemma AtMost24(factor: nat, count: nat)
    requires 1 <= count <= 255 && factor >= ONE
    ensures Lowered(HALF_DB_DOWN, 24) <= factor / count
  {
    LoweredOnce(HALF_DB_DOWN, 24);
    LoweredOnce(5840, 14);
    LoweredOnce(584, 4);
    hide Lowered;
    AverageAtLeast(factor, count, 257);
  }

  lemma ZeroSteps(factor: nat, count: nat)
    requires count >= 1 && factor == count * ONE
    ensures Lowered(HALF_DB_DOWN, 0) <= factor / count
  {
    AverageAtLeast(factor, count, ONE);
  }

  // ---------- accuracy against the exact linear mean ----------

  // A product that is looked into only where that helps.
  ghost function Times(x: real, y: real): real { x * y }

  ghost function Pow(t: real, n: nat): real {
    if n == 0 then 1.0 else t * Pow(t, n - 1)
  }

  // t is one decibel down: 10^(-1/10).
  ghost predicate Decibel(t: real) {
    t > 0.0 && Pow(t, 10) == 0.1
  }

  lemma Scale(x: real, y: real, z: real)
    requires x <= y && 0.0 <= z
    ensures x * z <= y * z
  {
  }

  lemma ScaleFive(e: real, w: real)
    requires -5.0 <= e <= 5.0 && 0.0 <= w
    ensures 0.0 - 5.0 * w <= e * w <= 5.0 * w
  {
    var d, f := e + 5.0, 5.0 - e;
    assert 0.0 <= d * w && 0.0 <= f * w;
    assert d * w == e * w + 5.0 * w && f * w == 5.0 * w - e * w;
  }

  lemma Products(a: real, b: real, x: real, y: real)
    requires 0.0 < a <= b && 0.0 < x <= y
    ensures 0.0 < a * x <= b * y && (a < b ==> a * x < b * y)
  {
    var c, z := b - a, y - x;
    assert b * y == a * x + c * x + b * z;
    assert 0.0 < a * x && 0.0 <= b * z && (if a < b then 0.0 < c * x else 0.0 <= c * x);
  }

  lemma PowMonotone(a: real, b: real, n: nat)
    requires 0.0 < a <= b
    ensures 0.0 < Pow(a, n) <= Pow(b, n)
    ensures a < b && n > 0 ==> Pow(a, n) < Pow(b, n)
  {
    if n > 0 {
      PowMonotone(a, b, n - 1);
      Products(a, b, Pow(a, n - 1), Pow(b, n - 1));
    }
  }

  lemma PowAdd(t: real, m: nat, n: nat)
    ensures Pow(t, m + n) == Times(Pow(t, m), Pow(t, n))
  {
    if m > 0 {
      PowAdd(t, m - 1, n);
      var x, y := Pow(t, m - 1), Pow(t, n);
      assert Pow(t, m) == t * x && Pow(t, m + n) == t * Times(x, y);
      hide Pow;
      Associate(t, x, y);
    } else {
      assert Pow(t, 0) == 1.0;
      hide *;
      TimesOne(Pow(t, n));
    }
  }

  lemma Associate(x: real, y: real, z: real)
    ensures Times(x * y, z) == x * Times(y, z)
  {
  }

  lemma TimesOne(x: real)
    ensures Times(1.0, x) == x
  {
  }

  lemma DecibelRange(t: real)
    requires Decibel(t)
    ensures 0.7943282347 < t < 0.7943282348
  {
    var a, b := 0.7943282347, 0.7943282348;
    Power10(a);
    Power10(b);
    if t <= a { PowMonotone(t, a, 10); }
    if b <= t { PowMonotone(b, t, 10); }
  }

  lemma Power10(a: real)
    ensures var s := a * a; var q := s * s; Pow(a, 10) == q * q * s
  {
    PowAdd(a, 1, 1);
    PowAdd(a, 2, 2);
    PowAdd(a, 4, 4);
    PowAdd(a, 8, 2);
  }

  lemma PowShrinks(t: real, n: nat)
    requires 0.0 < t < 1.0
    ensures 0.0 < Pow(t, n) <= 1.0 && (n > 0 ==> Pow(t, n) <= t)
  {
    if n > 0 {
      PowShrinks(t, n - 1);
      var p := Pow(t, n - 1);
      assert Pow(t, n) == t * p;
      hide Pow;
      Scale(0.0, t, p);
      Scale(p, 1.0, t);
    }
  }

  // The table holds 2^32 * t^c up to five units.
  lemma {:induction false} TableError(t: real, c: nat)
    requires Decibel(t) && 1 <= c <= 10
    ensures -5.0 <= DB_TO_VAL[c - 1] as real - TWO32 as real * Pow(t, c) <= 5.0
  {
    DecibelRange(t);
    if c == 1 {
      assert Pow(t, 1) == t * Pow(t, 0) == t;
    } else {
      TableError(t, c - 1);
      TableRatio(t, c - 1);
      var p, x, y := Pow(t, c - 1), DB_TO_VAL[c - 2] as real, DB_TO_VAL[c - 1] as real;
      assert Pow(t, c) == t * p;
      hide *;
      var e := x - TWO32 as real * p;
      Scale(e, 5.0, t);
      Scale(-5.0, e, t);
      assert TWO32 as real * (t * p) == t * x - e * t;
    }
  }

  lemma TableRatio(t: real, c: nat)
    requires 0.7943282347 < t < 0.7943282348 && 1 <= c <= 9
    ensures -1.0 <= t * DB_TO_VAL[c - 1] as real - DB_TO_VAL[c] as real <= 1.0
  {
    var x, y := DB_TO_VAL[c - 1] as real, DB_TO_VAL[c] as real;
    Scale(t, 0.7943282348, x);
    Scale(0.7943282347, t, x);
  }

  // Division by 2^32 in the reals.
  lemma Quotient(y: nat)
    ensures var q := (y / TWO32) as real; 4294967296.0 * q <= y as real < 4294967296.0 * q + 4294967296.0
  {
    var q := y / TWO32;
    assert q * TWO32 <= y < (q + 1) * TWO32;
    assert (q * TWO32) as real == q as real * 4294967296.0;
  }

  // One table step of at most 2^24 errs by less than 1.0196 down and 0.0196 up.
  lemma StepError(t: real, v: nat, c: nat, u: nat)
    requires Decibel(t) && 1 <= c <= 10 && v <= 256 * ONE && u == v * DB_TO_VAL[c - 1] / TWO32
    ensures StepNear(v as real, Pow(t, c), u as real)
  {
    hide Times, Pow, Decibel;
    TableError(t, c);
    StepNumbers(v, Pow(t, c), DB_TO_VAL[c - 1]);
  }

  ghost predicate StepNear(x: real, p: real, y: real) {
    Times(x, p) - 1.0196 <= y <= Times(x, p) + 0.0196
  }

  lemma StepNumbers(v: nat, p: real, x: nat)
    requires v <= 256 * ONE && -5.0 <= x as real - 4294967296.0 * p <= 5.0
    ensures StepNear(v as real, p, (v * x / TWO32) as real)
  {
    Quotient(v * x);
    assert (v * x) as real == v as real * x as real;
    StepReal(v as real, p, x as real, (v * x / TWO32) as real);
  }

  lemma StepReal(w: real, p: real, x: real, q: real)
    requires 0.0 <= w <= 16777216.0 && -5.0 <= x - 4294967296.0 * p <= 5.0
    requires 4294967296.0 * q <= w * x < 4294967296.0 * q + 4294967296.0
    ensures w * p - 1.0196 <= q <= w * p + 0.0196
  {
    var e := x - 4294967296.0 * p;
    var wp, ew := w * p, e * w;
    ScaleFive(e, w);
    assert w * x == 4294967296.0 * wp + ew by { Distribute(w, e, p); }
    Finish(w, ew, wp, q, w * x);
  }
  lemma Finish(w: real, ew: real, wp: real, q: real, wx: real)
    requires 0.0 <= w <= 16777216.0
    requires ew <= 5.0 * w && 0.0 - ew <= 5.0 * w
    requires wx == 4294967296.0 * wp + ew
    requires 4294967296.0 * q <= wx < 4294967296.0 * q + 4294967296.0
    ensures wp - 1.0196 <= q <= wp + 0.0196
  {
  }

  lemma Distribute(w: real, e: real, p: real)
    ensures w * (e + 4294967296.0 * p) == 4294967296.0 * (w * p) + e * w
  {
  }

  /** Lowering a value by c decibels is multiplying it by t^c, up to two units. */
  lemma {:induction false} LoweredError(t: real, v: nat, c: nat)
    requires Decibel(t) && v <= 256 * ONE
    ensures Near(v as real, Pow(t, c), Lowered(v, c) as real)
    decreases c
  {
    DecibelRange(t);
    PowShrinks(t, c);
    if v > 0 && c > 0 {
      var k := Min(c, 10);
      var u := v * DB_TO_VAL[k - 1] / TWO32;
      StepShrinks(v, k);
      assert Lowered(v, c) == Lowered(u, c - k);
      assert c <= 10 ==> Pow(t, c - k) == 1.0 && Lowered(u, c - k) == u;
      assert c >= 10 ==> Pow(t, k) == 0.1;
      hide Times, Lowered, Pow, Decibel, Near, StepNear;
      StepError(t, v, k, u);
      LoweredError(t, u, c - k);
      PowAdd(t, k, c - k);
      PowShrinks(t, k);
      PowShrinks(t, c - k);
      NearStep(v as real, u as real, Lowered(v, c) as real, Pow(t, k), Pow(t, c - k), Pow(t, c));
    }
  }

  // y is x * p, up to an error that shrinks as p grows towards one.
  ghost predicate Near(x: real, p: real, y: real) {
    var q := Times(x, p);
    q - 1.92 + 1.133 * p <= y <= q + 0.037 - 0.0218 * p
  }
  lemma NearStep(v: real, u: real, y: real, a: real, b: real, p: real)
    requires StepNear(v, a, u) && 0.0 < b <= 1.0 && p == Times(a, b) && Near(u, b, y)
    requires (b == 1.0 && y == u && a <= 0.7943282348) || a == 0.1
    ensures Near(v, p, y)
  {
    if a == 0.1 {
      var m := v * a;
      NearTen(m, u, b, y, m * b, u * b);
      assert m * b == v * p;
      assert p == 0.1 * b;
    } else {
      assert p == a && v * p == v * a;
    }
  }

  lemma ScaleStep(m: real, u: real, b: real, mb: real, ub: real)
    requires m - 1.0196 <= u <= m + 0.0196 && 0.0 < b && mb == m * b && ub == u * b
    ensures mb - 1.0196 * b <= ub <= mb + 0.0196 * b
  {
    var d, e := u - m + 1.0196, m + 0.0196 - u;
    assert 0.0 <= d * b && 0.0 <= e * b;
    assert d * b == u * b - m * b + 1.0196 * b;
    assert e * b == m * b + 0.0196 * b - u * b;
  }
  lemma NearTen(m: real, u: real, b: real, y: real, mb: real, ub: real)
    requires m - 1.0196 <= u <= m + 0.0196 && 0.0 < b <= 1.0 && ub - 1.92 + 1.133 * b <= y <= ub + 0.037 - 0.0218 * b
    requires mb == m * b && ub == u * b
    ensures mb - 1.92 + 0.1133 * b <= y <= mb + 0.037 - 0.00218 * b
  {
    ScaleStep(m, u, b, mb, ub);
  }

  // What a reading contributes in the exact linear sum, in units of 1/65536 of the base.
  ghost function Share(v: u8, base: int, t: real): real {
    if Valid(v) && base + v >= 0 then 65536.0 * Pow(t, base + v) else 0.0
  }

  ghost function Exact(vs: seq<u8>, base: int, t: real): real {
    if vs == [] then 0.0 else Exact(vs[..|vs| - 1], base, t) + Share(vs[|vs| - 1], base, t)
  }

  // Raising the base scales the exact sum.
  lemma {:induction false} ExactShift(vs: seq<u8>, base: int, c: nat, t: real)
    requires forall v | v in vs && Valid(v) :: base + v >= 0
    ensures Exact(vs, base + c, t) == Times(Exact(vs, base, t), Pow(t, c))
  {
    if vs != [] {
      var n := |vs| - 1;
      var front, v := vs[..n], vs[n];
      assert vs == front + [v];
      ExactShift(front, base, c, t);
      assert Exact(vs, base + c, t) == Exact(front, base + c, t) + Share(v, base + c, t);
      assert Exact(vs, base, t) == Exact(front, base, t) + Share(v, base, t);
      hide Times, Exact, Pow;
      if Valid(v) {
        assert v in vs;
        PowAdd(t, base + v, c);
        assert (base + c) + v == (base + v) + c;
        assert Share(v, base + c, t) == 65536.0 * Pow(t, base + v + c);
        hide Share;
        ShareShift(Pow(t, base + v), Pow(t, c), Pow(t, base + v + c), Exact(front, base, t), Share(v, base, t));
      }
    }
  }

  lemma ShareShift(x: real, p: real, y: real, e: real, share: real)
    requires y == Times(x, p) && share == 65536.0 * x
    ensures Times(e + share, p) == Times(e, p) + 65536.0 * y
  {
    assert (65536.0 * x) * p == 65536.0 * (x * p);
  }

  // A sum of n readings errs by at most two units down and 0.04 up per reading.
  ghost predicate Close(factor: real, exact: real, n: real) {
    exact - 2.0 * n <= factor <= exact + 0.04 * n
  }

  lemma CloseShifted(f: real, e: real, n: real, p: real, l: real)
    requires Close(f, e, n) && Near(f, p, l) && 0.0 < p <= 1.0 && 0.0 <= n
    ensures Close(l + 65536.0, Times(e, p) + 65536.0, n + 1.0)
  {
    var d, g := f - e + 2.0 * n, e + 0.04 * n - f;
    ShiftBounds(f, e, n, p, f * p, e * p, d * p, g * p, n * p);
  }

  lemma ShiftBounds(f: real, e: real, n: real, p: real, fp: real, ep: real, dp: real, gp: real, np: real)
    requires fp == f * p && ep == e * p && np == n * p && 0.0 < p <= 1.0 && 0.0 <= n
    requires 0.0 <= f - e + 2.0 * n && dp == (f - e + 2.0 * n) * p
    requires 0.0 <= e + 0.04 * n - f && gp == (e + 0.04 * n - f) * p
    ensures ep - 2.0 * n <= fp <= ep + 0.04 * n
  {
    assert dp == fp - ep + 2.0 * np && gp == ep + 0.04 * np - fp;
    NonNegative(f - e + 2.0 * n, p, dp);
    NonNegative(e + 0.04 * n - f, p, gp);
    NonNegative(n, 1.0 - p, n * (1.0 - p));
    assert n * (1.0 - p) == n - np;
  }

  lemma NonNegative(x: real, y: real, xy: real)
    requires 0.0 <= x && 0.0 <= y && xy == x * y
    ensures 0.0 <= xy
  {
  }

  lemma SignOfFactor(x: real, n: real, xn: real)
    requires n > 0.0 && xn == x * n
    ensures (xn <= 0.0 ==> x <= 0.0) && (0.0 < xn ==> 0.0 < x)
  {
    if 0.0 < x { assert 0.0 < x * n; }
    if x <= 0.0 { NonNegative(0.0 - x, n, (0.0 - x) * n); assert (0.0 - x) * n == 0.0 - xn; }
  }

  ghost predicate SumIsClose(s: Sum, exact: real) {
    Close(s.factor as real, exact, s.count as real)
  }

  // A reading at or below the base.
  lemma AddBelow(s: Sum, e: real, d: nat, t: real)
    requires Decibel(t) && SumIsClose(s, e)
    ensures SumIsClose(Sum(s.factor + Lowered(ONE, d), s.magnitude, s.count + 1), e + 65536.0 * Pow(t, d))
  {
    DecibelRange(t);
    PowShrinks(t, d);
    LoweredError(t, ONE, d);
    hide Times, Lowered, Pow, Decibel, Near, Close;
    CloseAdded(s.factor as real, e, s.count as real, Pow(t, d), Lowered(ONE, d) as real);
  }

  // A reading that raises the base by c.
  lemma AddAbove(s: Sum, e: real, c: nat, m: int, t: real)
    requires Decibel(t) && s.factor <= 256 * ONE && SumIsClose(s, e)
    ensures SumIsClose(Sum(Lowered(s.factor, c) + ONE, m, s.count + 1), Times(e, Pow(t, c)) + 65536.0)
  {
    DecibelRange(t);
    PowShrinks(t, c);
    LoweredError(t, s.factor, c);
    hide Times, Lowered, Pow, Decibel, Near, Close;
    assert (Lowered(s.factor, c) + ONE) as real == Lowered(s.factor, c) as real + 65536.0;
    CloseShifted(s.factor as real, e, s.count as real, Pow(t, c), Lowered(s.factor, c) as real);
  }

  lemma AddIsClose(front: seq<u8>, s: Sum, v: u8, t: real)
    requires Decibel(t) && Valid(v) && 0 <= s.factor <= 256 * ONE && SumIsClose(s, Exact(front, s.magnitude, t))
    requires forall w | w in front && Valid(w) :: s.magnitude + w >= 0
    ensures var s' := AddReading(s, v); SumIsClose(s', Exact(front, s'.magnitude, t) + Share(v, s'.magnitude, t))
  {
    assert Pow(t, 0) == 1.0;
    hide Times, Lowered, Pow, Exact, Decibel, SumIsClose;
    var e := Exact(front, s.magnitude, t);
    if Dbm(v) <= s.magnitude {
      AddBelow(s, e, s.magnitude + v, t);
    } else {
      assert s.magnitude + (Dbm(v) - s.magnitude) == Dbm(v) && Share(v, Dbm(v), t) == 65536.0;
      ExactShift(front, s.magnitude, Dbm(v) - s.magnitude, t);
      AddAbove(s, e, Dbm(v) - s.magnitude, Dbm(v), t);
    }
  }

  /** The fixed-point sum against the exact sum of powers. */
  lemma {:induction false} SumError(vs: seq<u8>, t: real)
    requires Decibel(t) && |vs| <= 255
    ensures SumIsClose(SumOf(vs), Exact(vs, SumOf(vs).magnitude, t))
  {
    if vs != [] {
      var n := |vs| - 1;
      var front, v := vs[..n], vs[n];
      var s, s' := SumOf(front), SumOf(vs);
      assert s' == AddReading(s, v);
      assert Exact(vs, s'.magnitude, t) == Exact(front, s'.magnitude, t) + Share(v, s'.magnitude, t);
      hide SumOf, Lowered, Exact, SumIsClose;
      SumError(front, t);
      SumFits(front);
      SumBase(front);
      if Valid(v) { AddIsClose(front, s, v, t); }
    }
  }

  lemma CloseAdded(f: real, e: real, n: real, p: real, l: real)
    requires Close(f, e, n) && Near(65536.0, p, l) && 0.0 < p <= 1.0
    ensures Close(f + l, e + 65536.0 * p, n + 1.0)
  {
  }

  // The mean of the powers, in units of 1/65536 of the base.
  ghost function ExactMean(vs: seq<u8>, t: real): real
    requires SumOf(vs).count > 0
  {
    Exact(vs, SumOf(vs).magnitude, t) / SumOf(vs).count as real
  }

  // h is half a decibel down.
  ghost predicate HalfDecibel(h: real, t: real) {
    h > 0.0 && h * h == t
  }

  lemma SquareBelow(x: real, y: real)
    requires 0.0 <= x < y
    ensures x * x < y * y
  {
    Positive(y - x, y + x);
    assert (y - x) * (y + x) == y * y - x * x;
  }

  lemma Positive(x: real, y: real)
    requires 0.0 < x && 0.0 < y
    ensures 0.0 < x * y
  {
  }

  /** The constant is half a decibel, rounded down. */
  lemma ConstantIsHalf(h: real, t: real)
    requires Decibel(t) && HalfDecibel(h, t)
    ensures HALF_DB_DOWN as real <= 65536.0 * h < HALF_DB_DOWN as real + 0.03
  {
    DecibelRange(t);
    var x, c := 65536.0 * h, HALF_DB_DOWN as real;
    assert x * x == 4294967296.0 * (h * h);
    assert c * c <= x * x < (c + 0.03) * (c + 0.03);
    if x < c { SquareBelow(x, c); }
    if c + 0.03 <= x { if c + 0.03 < x { SquareBelow(c + 0.03, x); } }
  }

  // The mean, in units of 1/65536 of the strongest reading, at which i dB down starts: half a decibel
  // and i decibels below it.
  ghost function Threshold(h: real, t: real, i: nat): real {
    65536.0 * h * Pow(t, i)
  }

  // The mean m reaches the threshold of i dB down, but not the one before.
  ghost predicate RoundsTo(m: real, h: real, t: real, i: nat) {
    Threshold(h, t, i) <= m + 2.2 && (i > 0 ==> m < Threshold(h, t, i - 1) + 2.2)
  }

  /** The result is the strongest reading lowered by i decibels, where i is the first whole number
      for which the exact mean of the powers reaches -0.5 dB - i dB: so r is that mean rounded to a
      whole decibel.  The fixed-point arithmetic shifts the thresholds by no more than 2.2 / 65536 of
      the strongest reading. */
  lemma MeanIsAccurate(vs: seq<u8>, r: int, h: real, t: real)
    requires Decibel(t) && HalfDecibel(h, t) && |vs| <= 255 && IsMean(vs, r) && SumOf(vs).count > 0
    ensures exists i: nat :: RoundsTo(ExactMean(vs, t), h, t, i) && r == Clamp(SumOf(vs).magnitude - i, -128, 0)
  {
    hide Times, SumOf, Lowered, ExactMean, Threshold, Decibel, HalfDecibel, Pow, Exact, Average, Steps, RoundsTo;
    MeanIsClose(vs, t);
    var s := SumOf(vs);
    var i :| 0 <= i <= 50 && Steps(Average(s), i) && r == Clamp(s.magnitude - i, -128, 0);
    StepsRound(h, t, Average(s), i, ExactMean(vs, t));
  }

  lemma StepsRound(h: real, t: real, q: nat, i: nat, m: real)
    requires Decibel(t) && HalfDecibel(h, t) && Steps(q, i) && m - 3.0 < q as real <= m + 0.04
    ensures RoundsTo(m, h, t, i)
  {
    hide Lowered, Threshold, Decibel, HalfDecibel;
    ReachedAt(h, t, q, i, m);
    if i > 0 { NotReachedAt(h, t, q, i - 1, m); }
  }

  lemma MeanIsClose(vs: seq<u8>, t: real)
    requires Decibel(t) && |vs| <= 255 && SumOf(vs).count > 0
    ensures var m, q := ExactMean(vs, t), Average(SumOf(vs)) as real; m - 3.0 < q <= m + 0.04
  {
    SumError(vs, t);
    hide SumOf, Exact, Decibel, Close;
    MeanOfClose(SumOf(vs).factor, Exact(vs, SumOf(vs).magnitude, t), SumOf(vs).count);
  }

  // The lowered constant against the exact threshold.
  lemma ThresholdError(h: real, t: real, i: nat)
    requires Decibel(t) && HalfDecibel(h, t)
    ensures Threshold(h, t, i) - 1.95 <= Lowered(HALF_DB_DOWN, i) as real <= Threshold(h, t, i) + 0.037
  {
    var p, x, c := Pow(t, i), 65536.0 * h, HALF_DB_DOWN as real;
    assert Threshold(h, t, i) == x * p;
    hide Lowered, Decibel, HalfDecibel, Pow, Threshold, Times, Near;
    DecibelRange(t);
    PowShrinks(t, i);
    ConstantIsHalf(h, t);
    LoweredError(t, HALF_DB_DOWN, i);
    Around(x, c, p, Times(c, p));
    Nearby(c, p, Lowered(HALF_DB_DOWN, i) as real, x * p);
  }

  lemma Nearby(c: real, p: real, l: real, xp: real)
    requires Near(c, p, l) && 0.0 < p <= 1.0 && Times(c, p) <= xp <= Times(c, p) + 0.03
    ensures xp - 1.95 <= l <= xp + 0.037
  {
    hide Times;
  }

  lemma ReachedAt(h: real, t: real, q: nat, i: nat, m: real)
    requires Decibel(t) && HalfDecibel(h, t) && Lowered(HALF_DB_DOWN, i) <= q && q as real <= m + 0.04
    ensures Threshold(h, t, i) <= m + 2.2
  {
    hide *;
    ThresholdError(h, t, i);
  }

  lemma NotReachedAt(h: real, t: real, q: nat, i: nat, m: real)
    requires Decibel(t) && HalfDecibel(h, t) && q < Lowered(HALF_DB_DOWN, i) && m - 3.0 < q as real
    ensures m < Threshold(h, t, i) + 2.2
  {
    hide *;
    ThresholdError(h, t, i);
    assert q as real <= Lowered(HALF_DB_DOWN, i) as real - 1.0;
  }

  // A factor close to c, scaled down, stays close.
  lemma Around(x: real, c: real, p: real, cp: real)
    requires c <= x < c + 0.03 && 0.0 < p <= 1.0 && cp == Times(c, p)
    ensures cp <= x * p <= cp + 0.03
  {
    Scale(c, x, p);
    NonNegative(c + 0.03 - x, p, (c + 0.03 - x) * p);
    assert (c + 0.03 - x) * p == cp + 0.03 * p - x * p;
  }

  lemma MeanOfClose(factor: nat, exact: real, n: nat)
    requires n > 0 && Close(factor as real, exact, n as real)
    ensures exact / n as real - 3.0 < (factor / n) as real <= exact / n as real + 0.04
  {
    var q, m := factor / n, exact / n as real;
    assert q * n <= factor < (q + 1) * n;
    assert (q * n) as real == q as real * n as real && ((q + 1) * n) as real == (q as real + 1.0) * n as real;
    assert m * n as real == exact;
    MeanBoundsReal(q as real, m, n as real, factor as real);
  }

  lemma MeanBoundsReal(q: real, m: real, n: real, f: real)
    requires n > 0.0 && q * n <= f < (q + 1.0) * n && m * n - 2.0 * n <= f <= m * n + 0.04 * n
    ensures m - 3.0 < q <= m + 0.04
  {
    var qn, mn := q * n, m * n;
    var low, high := (q - m - 0.04) * n, (q + 3.0 - m) * n;
    assert (q + 1.0) * n == qn + n;
    assert low == qn - mn - 0.04 * n && high == qn + 3.0 * n - mn;
    SignOfFactor(q - m - 0.04, n, low);
    SignOfFactor(q + 3.0 - m, n, high);
  }

  // ---------- an example ----------

  /** Two readings of -40 and -44 dBm, with an invalid one between them: the mean of the powers is
      -41.55 dBm, so the answer is -42. */
  lemma TwoReadings(r: int)
    requires IsMean([40, 255, 44], r)
    ensures r == -42
  {
    var vs: seq<u8> := [40, 255, 44];
    assert vs[..2] == [40, 255] && vs[..2][..1] == [40] && vs[..1][..0] == [];
    assert SumOf(vs[..0]) == Sum(0, -128, 0);
    FirstReading();
    assert SumOf(vs[..1]) == Sum(65536, -40, 1);
    assert SumOf(vs[..2]) == Sum(65536, -40, 1);
    LoweredOneStep(65536, 4);
    assert SumOf(vs) == Sum(91626, -40, 2);
    hide SumOf, Lowered;
    LoweredOneStep(HALF_DB_DOWN, 1);
    LoweredOneStep(HALF_DB_DOWN, 2);
    assert Lowered(HALF_DB_DOWN, 0) == 58409 by { LoweredZero(HALF_DB_DOWN); }
    var i :| 0 <= i <= 50 && Steps(Average(SumOf(vs)), i) && r == Clamp(-40 - i, -128, 0);
    assert Average(SumOf(vs)) == 45813;
    assert Lowered(HALF_DB_DOWN, 1) == 46395 && Lowered(HALF_DB_DOWN, 2) == 36853;
  }

  lemma FirstReading()
    ensures AddReading(Sum(0, -128, 0), 40) == Sum(65536, -40, 1)
  {
    assert Lowered(0, 88) == 0;
  }

  lemma LoweredZero(v: nat)
    ensures Lowered(v, 0) == v
  {
  }

  lemma LoweredOneStep(v: nat, d: nat)
    requires v > 0 && 1 <= d <= 10
    ensures Lowered(v, d) == v * DB_TO_VAL[d - 1] / TWO32
  {
    var u := v * DB_TO_VAL[d - 1] / TWO32;
    StepShrinks(v, d);
    LoweredZero(u);
  }
}
