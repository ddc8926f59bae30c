/**
 Shannon entropy of a byte string, over the reals. The logarithm is a parameter:
 any function with the product law, the value 1 at 2, and a tangent line at 1.
 */
module Entropy {

  type Byte = b: int | 0 <= b < 256

  ghost predicate ProductLaw(log2: real -> real, x: real, y: real) {
    x > 0.0 && y > 0.0 ==> log2(x * y) == log2(x) + log2(y)
  }

  ghost predicate BelowTangent(log2: real -> real, slope: real, x: real) {
    x > 0.0 ==> log2(x) <= slope * (x - 1.0)
  }

  /** The laws of the base-2 logarithm used here; `slope` is its slope at 1. */
  ghost predicate IsLog2(log2: real -> real, slope: real) {
    && (forall x, y :: ProductLaw(log2, x, y))
    && (forall x :: BelowTangent(log2, slope, x))
    && log2(2.0) == 1.0
  }

  /** The counted bytes in the order in which they first appear. */
  function Counted(data: seq<Byte>): seq<Byte> {
    if data == [] then []
    else
      var before := Counted(data[..|data| - 1]);
      if data[|data| - 1] in before then before else before + [data[|data| - 1]]
  }

  function Count(data: seq<Byte>, b: Byte): nat {
    multiset(data)[b]
  }

  /** The contribution of a byte that occurs `count` times in `total`. */
  function Term(log2: real -> real, count: nat, total: nat): real
    requires total > 0
  {
    var p := count as real / total as real;
    if count > 0 then p * log2(p) else 0.0
  }

  function SumOver(log2: real -> real, data: seq<Byte>, keys: seq<Byte>): real
    requires data != []
  {
    if keys == [] then 0.0
    else SumOver(log2, data, keys[..|keys| - 1]) + Term(log2, Count(data, keys[|keys| - 1]), |data|)
  }

  function ShannonEntropy(log2: real -> real, data: seq<Byte>): real {
    if data == [] then 0.0 else -SumOver(log2, data, Counted(data))
  }

  // ---------------------------------------------------------------- the order of counting does not matter

  ghost function Elements(keys: seq<Byte>): set<int> {
    set k: int | k in keys
  }

  /** The same sum in the order of the byte values, over the bytes below `b` that are in `keys`. */
  ghost function SumBelow(log2: real -> real, data: seq<Byte>, keys: set<int>, b: nat): real
    requires data != [] && b <= 256
  {
    if b == 0 then 0.0
    else SumBelow(log2, data, keys, b - 1) + if b - 1 in keys then Term(log2, Count(data, b - 1), |data|) else 0.0
  }

  lemma {:induction false} SumBelowAdds(log2: real -> real, data: seq<Byte>, keys: set<int>, k: Byte, b: nat)
    requires data != [] && b <= 256 && k !in keys
    ensures SumBelow(log2, data, keys + {k}, b)
         == SumBelow(log2, data, keys, b) + if k < b then Term(log2, Count(data, k), |data|) else 0.0
  {
    if b > 0 {
      SumBelowAdds(log2, data, keys, k, b - 1);
    }
  }

  lemma {:induction false} SumBelowNone(log2: real -> real, data: seq<Byte>, b: nat)
    requires data != [] && b <= 256
    ensures SumBelow(log2, data, {}, b) == 0.0
  {
    if b > 0 {
      SumBelowNone(log2, data, b - 1);
    }
  }

  lemma {:induction false} SumOverIsSumBelow(log2: real -> real, data: seq<Byte>, keys: seq<Byte>)
    requires data != []
    requires forall j, k :: 0 <= j < k < |keys| ==> keys[j] != keys[k]
    ensures SumOver(log2, data, keys) == SumBelow(log2, data, Elements(keys), 256)
  {
    if keys == [] {
      assert Elements(keys) == {};
      SumBelowNone(log2, data, 256);
    } else {
      var init, last := keys[..|keys| - 1], keys[|keys| - 1];
      SumOverIsSumBelow(log2, data, init);
      assert Elements(keys) == Elements(init) + {last};
      SumBelowAdds(log2, data, Elements(init), last, 256);
    }
  }

  lemma {:induction false} CountedIsDistinct(data: seq<Byte>)
    ensures forall j, k :: 0 <= j < k < |Counted(data)| ==> Counted(data)[j] != Counted(data)[k]
    ensures forall b: int :: b in Counted(data) <==> b in data
  {
    if data != [] {
      CountedIsDistinct(data[..|data| - 1]);
      assert data == data[..|data| - 1] + [data[|data| - 1]];
    }
  }

  /** The entropy's sum over all 256 byte values. */
  ghost function Sum(log2: real -> real, data: seq<Byte>, b: nat): real
    requires data != [] && b <= 256
  {
    if b == 0 then 0.0 else Sum(log2, data, b - 1) + Term(log2, Count(data, b - 1), |data|)
  }

  lemma {:induction false} SumBelowAll(log2: real -> real, data: seq<Byte>, b: nat)
    requires data != [] && b <= 256
    ensures SumBelow(log2, data, Elements(data), b) == Sum(log2, data, b)
  {
    if b > 0 {
      SumBelowAll(log2, data, b - 1);
      var v: Byte := b - 1;
      assert v in data <==> Count(data, v) > 0;
    }
  }

  lemma EntropyIsSum(log2: real -> real, data: seq<Byte>)
    requires data != []
    ensures ShannonEntropy(log2, data) == -Sum(log2, data, 256)
  {
    CountedIsDistinct(data);
    SumOverIsSumBelow(log2, data, Counted(data));
    assert Elements(Counted(data)) == Elements(data);
    SumBelowAll(log2, data, 256);
  }

  // ---------------------------------------------------------------- permuting and repeating

  lemma {:induction false} SumScales(log2: real -> real, a: seq<Byte>, c: seq<Byte>, times: nat, b: nat)
    requires a != [] && c != [] && b <= 256 && times > 0 && |c| == times * |a|
    requires forall v: Byte :: Count(c, v) == times * Count(a, v)
    ensures Sum(log2, c, b) == Sum(log2, a, b)
  {
    if b > 0 {
      SumScales(log2, a, c, times, b - 1);
      TermScales(log2, Count(a, b - 1), |a|, times);
    }
  }

  lemma TermScales(log2: real -> real, count: nat, total: nat, times: nat)
    requires total > 0 && times > 0 && times * total > 0
    ensures Term(log2, times * count, times * total) == Term(log2, count, total)
  {
    RatioScales(count as real, total as real, times as real);
    assert (times * count) as real == times as real * count as real;
    assert (times * total) as real == times as real * total as real;
  }

  lemma RatioScales(x: real, y: real, t: real)
    requires y > 0.0 && t > 0.0 && t * y != 0.0
    ensures (t * x) / (t * y) == x / y
  {
    var q := x / y;
    assert x == q * y;
    assert t * x == q * (t * y);
  }

  /** Permuting the bytes does not change the entropy. */
  lemma PermutationInvariant(log2: real -> real, a: seq<Byte>, b: seq<Byte>)
    requires multiset(a) == multiset(b)
    ensures ShannonEntropy(log2, a) == ShannonEntropy(log2, b)
  {
    assert |a| == |multiset(a)| && |b| == |multiset(b)|;
    if a != [] {
      SumScales(log2, a, b, 1, 256);
      EntropyIsSum(log2, a);
      EntropyIsSum(log2, b);
    }
  }

  function Repeat(data: seq<Byte>, times: nat): seq<Byte> {
    if times == 0 then [] else Repeat(data, times - 1) + data
  }

  lemma {:induction false} RepeatCounts(data: seq<Byte>, times: nat)
    ensures |Repeat(data, times)| == times * |data|
    ensures forall v: Byte :: Count(Repeat(data, times), v) == times * Count(data, v)
  {
    if times > 0 {
      RepeatCounts(data, times - 1);
      assert (times - 1) * |data| + |data| == times * |data|;
      forall v: Byte ensures Count(Repeat(data, times), v) == times * Count(data, v) {
        assert (times - 1) * Count(data, v) + Count(data, v) == times * Count(data, v);
      }
    }
  }

  /** Repeating the whole string any number of times does not change the entropy. */
  lemma {:induction false} RepetitionInvariant(log2: real -> real, data: seq<Byte>, times: nat)
    requires times > 0
    ensures ShannonEntropy(log2, Repeat(data, times)) == ShannonEntropy(log2, data)
  {
    RepeatCounts(data, times);
    if data != [] {
      assert times * |data| > 0;
      SumScales(log2, data, Repeat(data, times), times, 256);
      EntropyIsSum(log2, data);
      EntropyIsSum(log2, Repeat(data, times));
    }
  }

  // ---------------------------------------------------------------- between 0 and 8

  lemma LogOfQuotient(log2: real -> real, slope: real, x: real)
    requires IsLog2(log2, slope) && x > 0.0
    ensures log2(1.0) == 0.0
    ensures log2(1.0 / x) == -log2(x)
  {
    assert ProductLaw(log2, 1.0, 1.0);
    var y := 1.0 / x;
    assert x * y == 1.0;
    assert ProductLaw(log2, x, y);
  }

  lemma LogOf256(log2: real -> real, slope: real)
    requires IsLog2(log2, slope)
    ensures log2(256.0) == 8.0
  {
    assert ProductLaw(log2, 2.0, 2.0);
    assert ProductLaw(log2, 4.0, 4.0);
    assert ProductLaw(log2, 16.0, 16.0);
  }

  /** A proportion's term is at most 0, and at least what the tangent line at 1/256 gives. */
  lemma TermBounds(log2: real -> real, slope: real, p: real)
    requires IsLog2(log2, slope) && 0.0 < p <= 1.0
    ensures p * log2(p) <= 0.0
    ensures -(p * log2(p)) <= 8.0 * p + slope / 256.0 - slope * p
  {
    LogOf256(log2, slope);
    SlopePositive(log2, slope);
    assert BelowTangent(log2, slope, p);
    Weighted(1.0 - p, 0.0, slope);
    Weighted(p, log2(p), 0.0);
    var x := 256.0 * p;
    assert ProductLaw(log2, 256.0, p);
    LogOfQuotient(log2, slope, x);
    var y := 1.0 / x;
    assert log2(y) == -8.0 - log2(p);
    assert BelowTangent(log2, slope, y);
    assert p * y == 1.0 / 256.0 by {
      assert x * y == 1.0;
      assert 256.0 * (p * y) == 1.0;
    }
    Weighted(p, log2(y), slope * (y - 1.0));
    assert p * (slope * (y - 1.0)) == slope * (p * y) - slope * p;
    assert p * (-8.0 - log2(p)) == -(8.0 * p) - p * log2(p);
  }

  lemma SlopePositive(log2: real -> real, slope: real)
    requires IsLog2(log2, slope)
    ensures slope >= 1.0
  {
    assert BelowTangent(log2, slope, 2.0);
  }

  lemma Weighted(p: real, x: real, y: real)
    requires p >= 0.0 && x <= y
    ensures p * x <= p * y
  {
    assert p * (y - x) >= 0.0;
  }

  lemma Proportion(x: real, y: real)
    requires 0.0 < x <= y
    ensures 0.0 < x / y <= 1.0
  {
    var q := x / y;
    assert q * y == x;
  }

  /** How many of the bytes have a value below `b`. */
  ghost function Below(data: seq<Byte>, b: nat): nat
    requires b <= 256
  {
    if b == 0 then 0 else Below(data, b - 1) + Count(data, b - 1)
  }

  lemma {:induction false} BelowAdds(data: seq<Byte>, last: Byte, b: nat)
    requires b <= 256
    ensures Below(data + [last], b) == Below(data, b) + if last < b then 1 else 0
  {
    if b > 0 {
      BelowAdds(data, last, b - 1);
    }
  }

  lemma {:induction false} AllBelow(data: seq<Byte>)
    ensures Below(data, 256) == |data|
  {
    if data == [] {
      NoneBelow(256);
    } else {
      AllBelow(data[..|data| - 1]);
      BelowAdds(data[..|data| - 1], data[|data| - 1], 256);
      assert data == data[..|data| - 1] + [data[|data| - 1]];
    }
  }

  lemma {:induction false} NoneBelow(b: nat)
    requires b <= 256
    ensures Below([], b) == 0
  {
    if b > 0 {
      NoneBelow(b - 1);
    }
  }

  lemma {:induction false} BelowGrows(data: seq<Byte>, a: nat, b: nat)
    requires a <= b <= 256
    ensures Below(data, a) <= Below(data, b)
  {
    if a < b {
      BelowGrows(data, a, b - 1);
    }
  }

  /** The proportion of bytes below `b`. */
  ghost function Share(data: seq<Byte>, b: nat): real
    requires data != [] && b <= 256
  {
    Below(data, b) as real / |data| as real
  }

  /** What the tangent line at 1/256 allows a byte of proportion `p`, and the bytes below `b` of proportion `x`. */
  function TermCap(slope: real, p: real): real {
    8.0 * p + slope / 256.0 - slope * p
  }

  function SumCap(slope: real, x: real, b: nat): real {
    8.0 * x + slope / 256.0 * (b as real) - slope * x
  }

  lemma SumCapSplits(slope: real, x: real, p: real, b: nat)
    requires b > 0
    ensures SumCap(slope, x + p, b) == SumCap(slope, x, b - 1) + TermCap(slope, p)
  {
  }

  lemma {:induction false} SumBounds(log2: real -> real, slope: real, data: seq<Byte>, b: nat)
    requires IsLog2(log2, slope) && data != [] && b <= 256
    ensures Sum(log2, data, b) <= 0.0
    ensures -Sum(log2, data, b) <= SumCap(slope, Share(data, b), b)
  {
    if b > 0 {
      SumBounds(log2, slope, data, b - 1);
      OneMoreByte(log2, slope, data, b);
      SumCapSplits(slope, Share(data, b - 1), Count(data, b - 1) as real / |data| as real, b);
    }
  }

  lemma QuotientAdds(x: real, y: real, n: real)
    requires n > 0.0
    ensures (x + y) / n == x / n + y / n
  {
    assert (x / n + y / n) * n == x + y;
  }

  lemma OneMoreByte(log2: real -> real, slope: real, data: seq<Byte>, b: nat)
    requires IsLog2(log2, slope) && data != [] && 0 < b <= 256
    ensures var t := Term(log2, Count(data, b - 1), |data|);
            var p := Count(data, b - 1) as real / |data| as real;
            Share(data, b) == Share(data, b - 1) + p && t <= 0.0 && -t <= TermCap(slope, p)
  {
    var n, c := |data| as real, Count(data, b - 1);
    var p := c as real / n;
    QuotientAdds(Below(data, b - 1) as real, c as real, n);
    assert Share(data, b) == Share(data, b - 1) + p;
    if c > 0 {
      CountAtMost(data, b - 1);
      Proportion(c as real, n);
      TermBounds(log2, slope, p);
    } else {
      SlopePositive(log2, slope);
    }
  }

  lemma CountAtMost(data: seq<Byte>, b: Byte)
    ensures Count(data, b) <= |data|
  {
    AllBelow(data);
    BelowGrows(data, b + 1, 256);
  }

  lemma SelfQuotient(x: real)
    requires x > 0.0
    ensures x / x == 1.0
  {
  }

  lemma WholeShare(data: seq<Byte>)
    requires data != []
    ensures Share(data, 256) == 1.0
  {
    AllBelow(data);
    SelfQuotient(|data| as real);
  }

  /** For every byte string the entropy lies between 0 and 8. */
  lemma EntropyIsBounded(log2: real -> real, slope: real, data: seq<Byte>)
    requires IsLog2(log2, slope)
    ensures 0.0 <= ShannonEntropy(log2, data) <= 8.0
  {
    if data != [] {
      EntropyIsSum(log2, data);
      WholeShare(data);
      SumBounds(log2, slope, data, 256);
    }
  }

  lemma UniformTerm(log2: real -> real, slope: real, each: nat, total: nat)
    requires IsLog2(log2, slope) && each > 0 && total == 256 * each
    ensures Term(log2, each, total) == -1.0 / 32.0
  {
    RatioScales(1.0, 256.0, each as real);
    assert total as real == each as real * 256.0;
    LogOf256(log2, slope);
    LogOfQuotient(log2, slope, 256.0);
  }

  lemma {:induction false} UniformSum(log2: real -> real, slope: real, data: seq<Byte>, each: nat, b: nat)
    requires IsLog2(log2, slope) && b <= 256 && each > 0 && |data| == 256 * each
    requires forall v: Byte :: Count(data, v) == each
    ensures Sum(log2, data, b) == -(b as real) / 32.0
  {
    if b > 0 {
      UniformSum(log2, slope, data, each, b - 1);
      UniformTerm(log2, slope, each, |data|);
      assert Count(data, b - 1) == each;
    }
  }

  /** The bound is attained by strings in which every byte value is equally frequent. */
  lemma UniformAttainsBound(log2: real -> real, slope: real, data: seq<Byte>, each: nat)
    requires IsLog2(log2, slope) && each > 0
    requires forall v: Byte :: Count(data, v) == each
    ensures ShannonEntropy(log2, data) == 8.0
  {
    UniformBelow(data, each, 256);
    AllBelow(data);
    UniformSum(log2, slope, data, each, 256);
    EntropyIsSum(log2, data);
  }

  lemma {:induction false} UniformBelow(data: seq<Byte>, each: nat, b: nat)
    requires b <= 256 && forall v: Byte :: Count(data, v) == each
    ensures Below(data, b) == b * each
  {
    if b > 0 {
      UniformBelow(data, each, b - 1);
    }
  }

  /** Away from 1 the logarithm is strictly below its tangent line. */
  ghost predicate StrictlyBelow(log2: real -> real, slope: real, x: real) {
    x > 0.0 && x != 1.0 ==> log2(x) < slope * (x - 1.0)
  }

  lemma TermIsTight(log2: real -> real, slope: real, p: real)
    requires IsLog2(log2, slope) && (forall x :: StrictlyBelow(log2, slope, x)) && 0.0 < p <= 1.0
    requires -(p * log2(p)) == 8.0 * p + slope / 256.0 - slope * p
    ensures 256.0 * p == 1.0
  {
    LogOf256(log2, slope);
    var x := 256.0 * p;
    assert ProductLaw(log2, 256.0, p);
    LogOfQuotient(log2, slope, x);
    var y := 1.0 / x;
    assert x * y == 1.0;
    assert p * y == 1.0 / 256.0 by {
      assert 256.0 * (p * y) == 1.0;
    }
    assert p * (slope * (y - 1.0)) == slope * (p * y) - slope * p;
    assert p * (-8.0 - log2(p)) == -(8.0 * p) - p * log2(p);
    CancelFactor(p, log2(y), slope * (y - 1.0));
    assert StrictlyBelow(log2, slope, y);
  }

  lemma CancelFactor(p: real, x: real, y: real)
    requires p > 0.0 && p * x == p * y
    ensures x == y
  {
    assert p * (x - y) == 0.0;
  }

  lemma WholeProportion(c: nat, n: nat)
    requires n > 0 && 256.0 * (c as real / n as real) == 1.0
    ensures 256 * c == n
  {
    var p := c as real / n as real;
    assert p * n as real == c as real;
    assert (256 * c) as real == (256.0 * p) * n as real;
  }

  lemma CountIsTight(log2: real -> real, slope: real, c: nat, n: nat, p: real)
    requires IsLog2(log2, slope) && (forall x :: StrictlyBelow(log2, slope, x)) && n > 0 && c <= n
    requires p == c as real / n as real && -Term(log2, c, n) == TermCap(slope, p)
    ensures 256 * c == n
  {
    if c > 0 {
      Proportion(c as real, n as real);
      TermIsTight(log2, slope, p);
      WholeProportion(c, n);
    } else {
      SlopePositive(log2, slope);
    }
  }

  lemma {:induction false} SumIsTight(log2: real -> real, slope: real, data: seq<Byte>, b: nat)
    requires IsLog2(log2, slope) && (forall x :: StrictlyBelow(log2, slope, x)) && data != [] && b <= 256
    requires -Sum(log2, data, b) == SumCap(slope, Share(data, b), b)
    ensures forall v: Byte :: v < b ==> 256 * Count(data, v) == |data|
  {
    if b > 0 {
      SumBounds(log2, slope, data, b - 1);
      OneMoreByte(log2, slope, data, b);
      var c, n := Count(data, b - 1), |data|;
      var p := c as real / n as real;
      SumCapSplits(slope, Share(data, b - 1), p, b);
      CountAtMost(data, b - 1);
      CountIsTight(log2, slope, c, n, p);
      SumIsTight(log2, slope, data, b - 1);
    }
  }

  /** The bound of 8 is attained exactly by the strings in which all byte values are equally frequent. */
  lemma {:induction false} EightIffUniform(log2: real -> real, slope: real, data: seq<Byte>)
    requires IsLog2(log2, slope) && forall x :: StrictlyBelow(log2, slope, x)
    ensures ShannonEntropy(log2, data) == 8.0 <==> data != [] && forall v: Byte :: 256 * Count(data, v) == |data|
  {
    if data != [] {
      EntropyIsSum(log2, data);
      WholeShare(data);
      if ShannonEntropy(log2, data) == 8.0 {
        SumIsTight(log2, slope, data, 256);
      } else if forall v: Byte :: 256 * Count(data, v) == |data| {
        UniformAttainsBound(log2, slope, data, Count(data, 0));
      }
    }
  }

  // ---------------------------------------------------------------- equally frequent values

  /** How many of the bytes have one of these values. */
  function TotalOver(data: seq<Byte>, keys: seq<Byte>): nat {
    if keys == [] then 0 else TotalOver(data, keys[..|keys| - 1]) + Count(data, keys[|keys| - 1])
  }

  ghost predicate AllDifferent(keys: seq<Byte>) {
    forall j, k :: 0 <= j < k < |keys| ==> keys[j] != keys[k]
  }

  lemma {:induction false} TotalAdds(data: seq<Byte>, last: Byte, keys: seq<Byte>)
    requires AllDifferent(keys)
    ensures TotalOver(data + [last], keys) == TotalOver(data, keys) + if last in keys then 1 else 0
  {
    if keys != [] {
      TotalAdds(data, last, keys[..|keys| - 1]);
      assert keys == keys[..|keys| - 1] + [keys[|keys| - 1]];
    }
  }

  lemma {:induction false} TotalIsLength(data: seq<Byte>, keys: seq<Byte>)
    requires AllDifferent(keys) && forall b :: b in data ==> b in keys
    ensures TotalOver(data, keys) == |data|
    decreases |data|
  {
    if data == [] {
      NothingCounted(keys);
    } else {
      var init, last := data[..|data| - 1], data[|data| - 1];
      assert data == init + [last];
      TotalIsLength(init, keys);
      TotalAdds(init, last, keys);
    }
  }

  lemma {:induction false} NothingCounted(keys: seq<Byte>)
    ensures TotalOver([], keys) == 0
  {
    if keys != [] {
      NothingCounted(keys[..|keys| - 1]);
    }
  }

  /** `m` times `x`, by repeated addition. */
  function Scaled(m: nat, x: real): real {
    if m == 0 then 0.0 else Scaled(m - 1, x) + x
  }

  lemma {:induction false} ScaledIsProduct(m: nat, x: real)
    ensures Scaled(m, x) == m as real * x
  {
    if m > 0 {
      ScaledIsProduct(m - 1, x);
      assert ((m - 1) as real + 1.0) * x == (m - 1) as real * x + x;
    }
  }

  lemma {:induction false} EvenTotal(data: seq<Byte>, keys: seq<Byte>, each: nat)
    requires forall b :: b in keys ==> Count(data, b) == each
    ensures TotalOver(data, keys) == |keys| * each
  {
    if keys != [] {
      EvenTotal(data, keys[..|keys| - 1], each);
      assert |keys| * each == (|keys| - 1) * each + each;
    }
  }

  lemma {:induction false} EvenSum(log2: real -> real, data: seq<Byte>, keys: seq<Byte>, each: nat)
    requires data != [] && forall b :: b in keys ==> Count(data, b) == each
    ensures SumOver(log2, data, keys) == Scaled(|keys|, Term(log2, each, |data|))
  {
    if keys != [] {
      EvenSum(log2, data, keys[..|keys| - 1], each);
    }
  }

  lemma {:induction false} EvenTerm(log2: real -> real, slope: real, each: nat, m: nat, total: nat)
    requires IsLog2(log2, slope) && each > 0 && m > 0 && total > 0 && total == m * each
    ensures Scaled(m, Term(log2, each, total)) == -log2(m as real)
  {
    var x := m as real;
    RatioScales(1.0, x, each as real);
    assert total as real == each as real * x;
    LogOfQuotient(log2, slope, x);
    assert Term(log2, each, total) == 1.0 / x * -log2(x);
    ScaledIsProduct(m, Term(log2, each, total));
    assert x * (1.0 / x) == 1.0;
    assert x * (1.0 / x * -log2(x)) == (x * (1.0 / x)) * -log2(x);
  }

  lemma {:induction false} EvenLength(data: seq<Byte>, each: nat)
    requires data != [] && forall b :: b in data ==> Count(data, b) == each
    ensures each > 0 && Counted(data) != [] && |data| == |Counted(data)| * each
  {
    CountedIsDistinct(data);
    assert data[0] in Counted(data) && Count(data, data[0]) == each;
    TotalIsLength(data, Counted(data));
    EvenTotal(data, Counted(data), each);
  }

  /** The entropy of a string of `m` equally frequent values is the logarithm of `m`. */
  lemma {:induction false} EvenEntropy(log2: real -> real, slope: real, data: seq<Byte>, each: nat)
    requires IsLog2(log2, slope) && data != [] && forall b :: b in data ==> Count(data, b) == each
    ensures Counted(data) != [] && ShannonEntropy(log2, data) == log2(|Counted(data)| as real)
  {
    CountedIsDistinct(data);
    EvenSum(log2, data, Counted(data), each);
    EvenLength(data, each);
    EvenTerm(log2, slope, each, |Counted(data)|, |data|);
  }

  // ---------------------------------------------------------------- no entropy

  ghost predicate Constant(data: seq<Byte>) {
    forall i :: 0 <= i < |data| ==> data[i] == data[0]
  }

  lemma TermSign(log2: real -> real, slope: real, count: nat, total: nat)
    requires IsLog2(log2, slope) && count <= total && total > 0
    ensures Term(log2, count, total) <= 0.0
    ensures 0 < count < total ==> Term(log2, count, total) < 0.0
  {
    if count > 0 {
      var p := count as real / total as real;
      Proportion(count as real, total as real);
      TermBounds(log2, slope, p);
      if count < total {
        assert p * total as real == count as real;
        assert p < 1.0;
        SlopePositive(log2, slope);
        assert BelowTangent(log2, slope, p);
        assert slope * (1.0 - p) > 0.0;
        assert log2(p) < 0.0;
        assert p * log2(p) < 0.0;
      }
    }
  }

  lemma {:induction false} SumSign(log2: real -> real, slope: real, data: seq<Byte>, keys: seq<Byte>)
    requires IsLog2(log2, slope) && data != []
    ensures SumOver(log2, data, keys) <= 0.0
    ensures (exists b :: b in keys && 0 < Count(data, b) < |data|) ==> SumOver(log2, data, keys) < 0.0
  {
    if keys != [] {
      var init, last := keys[..|keys| - 1], keys[|keys| - 1];
      assert keys == init + [last];
      SumSign(log2, slope, data, init);
      CountAtMost(data, last);
      TermSign(log2, slope, Count(data, last), |data|);
    }
  }

  lemma {:induction false} OtherLowersCount(data: seq<Byte>, b: Byte, k: nat)
    requires k < |data| && data[k] != b
    ensures Count(data, b) < |data|
    decreases |data|
  {
    var init, last := data[..|data| - 1], data[|data| - 1];
    assert data == init + [last];
    if last == b {
      OtherLowersCount(init, b, k);
    } else {
      CountAtMost(init, b);
    }
  }

  lemma {:induction false} OneCounted(data: seq<Byte>, b: Byte)
    requires data != [] && forall i :: 0 <= i < |data| ==> data[i] == b
    ensures Counted(data) == [b]
  {
    if |data| > 1 {
      OneCounted(data[..|data| - 1], b);
    }
  }

  /** The entropy is zero exactly if all bytes are equal. */
  lemma {:induction false} ZeroIffConstant(log2: real -> real, slope: real, data: seq<Byte>)
    requires IsLog2(log2, slope)
    ensures ShannonEntropy(log2, data) == 0.0 <==> Constant(data)
  {
    if data != [] {
      CountedIsDistinct(data);
      if Constant(data) {
        EvenEntropy(log2, slope, data, Count(data, data[0]));
        OneCounted(data, data[0]);
        LogOfQuotient(log2, slope, 1.0);
      } else {
        var k :| 0 <= k < |data| && data[k] != data[0];
        OtherLowersCount(data, data[0], k);
        assert data[0] in Counted(data) && Count(data, data[0]) > 0;
        SumSign(log2, slope, data, Counted(data));
      }
    }
  }
}
