/** The distance between node ids. */
module XorMetric {
  import opened Wrappers
  import opened Bytes
  import opened Binary
  import opened Arithmetic

  type NodeId = s: seq<u8> | |s| == 20 witness seq(20, _ => 0)

  function Xor(a: nat, b: nat): nat
    decreases a + b
  {
    if a == 0 && b == 0 then 0
    else 2 * Xor(a / 2, b / 2) + if a % 2 == b % 2 then 0 else 1
  }

  lemma {:induction false} XorBound(a: nat, b: nat, m: nat)
    requires a < Pow2(m) && b < Pow2(m)
    ensures Xor(a, b) < Pow2(m)
    decreases m
  {
    if m > 0 {
      XorBound(a / 2, b / 2, m - 1);
    }
  }

  lemma {:induction false} XorCancels(t: nat, a: nat, b: nat)
    requires Xor(t, a) == Xor(t, b)
    ensures a == b
    decreases t + a + b
  {
    if t + a + b > 0 {
      XorStep(t, a);
      XorStep(t, b);
      XorCancels(t / 2, a / 2, b / 2);
    }
  }

  lemma XorStep(a: nat, b: nat)
    ensures Xor(a, b) / 2 == Xor(a / 2, b / 2)
    ensures Xor(a, b) % 2 == 0 <==> a % 2 == b % 2
  {
  }

  lemma {:induction false} XorZero(a: nat, b: nat)
    ensures Xor(a, b) == 0 <==> a == b
    decreases a + b
  {
    if a + b > 0 {
      XorStep(a, b);
      XorZero(a / 2, b / 2);
    }
  }

  /** 160 bits as the highest 128 and the lowest 32; ordered by the former first. */
  datatype Distance = Distance(hi: nat, lo: nat) {
    predicate Less(other: Distance) {
      hi < other.hi || (hi == other.hi && lo < other.lo)
    }

    // The distance as one number; the order of the pairs is its order.
    function Value(): nat {
      hi * Pow2(32) + lo
    }

    ghost predicate WF() {
      hi < Pow2(128) && lo < Pow2(32)
    }
  }

  function High(a: NodeId): nat {
    FromBe(a[..16])
  }

  function Lower(a: NodeId): nat {
    FromBe(a[16..])
  }

  function DistanceOf(a: NodeId, b: NodeId): Distance {
    Distance(Xor(High(a), High(b)), Xor(Lower(a), Lower(b)))
  }

  lemma {:induction false} Pow256IsPow2(k: nat)
    ensures Pow256(k) == Pow2(8 * k)
  {
    if k > 0 {
      Pow256IsPow2(k - 1);
      PowSum(8, 8 * (k - 1));
      assert Pow2(8) == 256;
    }
  }

  lemma DistanceWF(a: NodeId, b: NodeId)
    ensures DistanceOf(a, b).WF()
  {
    ToOfFromBe(a[..16]);
    ToOfFromBe(b[..16]);
    ToOfFromBe(a[16..]);
    ToOfFromBe(b[16..]);
    Pow256IsPow2(16);
    Pow256IsPow2(4);
    XorBound(High(a), High(b), 128);
    XorBound(Lower(a), Lower(b), 32);
  }

  // The order of the pairs is the order of the numbers.
  lemma LessIsNumeric(d: Distance, e: Distance)
    requires d.WF() && e.WF()
    ensures d.Less(e) <==> d.Value() < e.Value()
    ensures d == e <==> d.Value() == e.Value()
  {
    PairOrder(d.hi, d.lo, e.hi, e.lo, Pow2(32));
  }

  lemma PairOrder(a: nat, b: nat, c: nat, d: nat, p: nat)
    requires b < p && d < p
    ensures a < c || (a == c && b < d) <==> a * p + b < c * p + d
    ensures a == c && b == d <==> a * p + b == c * p + d
  {
    MulApart(a, c, p);
  }

  lemma FromBeIsInjective(s: seq<u8>, t: seq<u8>)
    requires |s| == |t| && FromBe(s) == FromBe(t)
    ensures s == t
  {
  }

  // Different ids lie at different distances from a target.
  lemma DistanceIsInjective(target: NodeId, a: NodeId, b: NodeId)
    ensures DistanceOf(target, a) == DistanceOf(target, b) <==> a == b
  {
    if DistanceOf(target, a) == DistanceOf(target, b) {
      XorCancels(High(target), High(a), High(b));
      XorCancels(Lower(target), Lower(a), Lower(b));
      FromBeIsInjective(a[..16], b[..16]);
      FromBeIsInjective(a[16..], b[16..]);
      assert a == a[..16] + a[16..] && b == b[..16] + b[16..];
    }
  }

  lemma DistanceZero(a: NodeId, b: NodeId)
    ensures DistanceOf(a, b) == Distance(0, 0) <==> a == b
  {
    XorZero(High(a), High(a));
    XorZero(Lower(a), Lower(a));
    DistanceIsInjective(a, a, b);
  }

  // The zeros above the highest bit of a word.
  function LeadingZeros(n: nat, width: nat): (z: nat)
    ensures z <= width
  {
    if width == 0 || Pow2(width - 1) <= n then 0 else 1 + LeadingZeros(n, width - 1)
  }

  lemma {:induction false} HighestBit(n: nat, width: nat)
    requires 0 < n < Pow2(width)
    ensures var z := LeadingZeros(n, width);
            z < width && Pow2(width - 1 - z) <= n < Pow2(width - z)
  {
    if n < Pow2(width - 1) {
      HighestBit(n, width - 1);
    }
  }

  function DistanceZeros(d: Distance): nat {
    if d.hi != 0 then LeadingZeros(d.hi, 128) else 128 + LeadingZeros(d.lo, 32)
  }

  lemma {:induction false} PowSum(a: nat, b: nat)
    ensures Pow2(a + b) == Pow2(a) * Pow2(b)
  {
    if a > 0 {
      PowSum(a - 1, b);
      assert Pow2(a + b) == 2 * Pow2(a - 1 + b);
      Doubled(Pow2(a - 1), Pow2(b));
    }
  }

  lemma Doubled(p: nat, q: nat)
    ensures 2 * (p * q) == (2 * p) * q
  {
  }

  lemma {:induction false} PowMonotone(a: nat, b: nat)
    requires a <= b
    ensures Pow2(a) <= Pow2(b)
    decreases b
  {
    if a < b {
      PowMonotone(a, b - 1);
    }
  }

  // The bucket of an id in the table of `self`; none for `self` itself.
  function BucketIndex(self: NodeId, id: NodeId): (r: Option<nat>)
    ensures r.Some? ==> r.value < 160
  {
    var d := DistanceOf(self, id);
    if d == Distance(0, 0) then None
    else
      DistanceWF(self, id);
      ZerosBelow160(d);
      Some(159 - DistanceZeros(d))
  }

  lemma ZerosBelow160(d: Distance)
    requires d.WF() && d != Distance(0, 0)
    ensures DistanceZeros(d) < 160
    ensures Pow2(159 - DistanceZeros(d)) <= d.Value() < Pow2(160 - DistanceZeros(d))
  {
    if d.hi != 0 {
      HighestBitAbove(d.hi, d.lo, 128, 32);
    } else {
      HighestBit(d.lo, 32);
    }
  }

  lemma HighestBitAbove(hi: nat, lo: nat, width: nat, rest: nat)
    requires 0 < hi < Pow2(width) && lo < Pow2(rest)
    ensures var z := LeadingZeros(hi, width);
            z < width && Pow2(width - 1 - z + rest) <= hi * Pow2(rest) + lo < Pow2(width - z + rest)
  {
    HighestBit(hi, width);
    var z := LeadingZeros(hi, width);
    PowSum(width - 1 - z, rest);
    PowSum(width - z, rest);
    MulApart(Pow2(width - 1 - z), hi, Pow2(rest));
    MulApart(hi, Pow2(width - z), Pow2(rest));
  }

  function Gap(a: NodeId, b: NodeId): nat {
    DistanceOf(a, b).Value()
  }

  lemma GapInOctave(self: NodeId, id: NodeId) returns (k: nat)
    requires id != self
    ensures k < 160 && BucketIndex(self, id) == Some(k)
    ensures Pow2(k) <= Gap(self, id) < Pow2(k + 1)
  {
    DistanceZero(self, id);
    DistanceWF(self, id);
    ZerosBelow160(DistanceOf(self, id));
    k := 159 - DistanceZeros(DistanceOf(self, id));
  }

  lemma NoBucketForSelf(self: NodeId)
    ensures BucketIndex(self, self) == None && Gap(self, self) == 0
  {
    DistanceZero(self, self);
  }

  // Bucket i holds the ids at a distance from 2^i up to 2^(i+1), and no others.
  lemma BucketIsDyadic(self: NodeId, id: NodeId, i: nat)
    ensures BucketIndex(self, id) == Some(i) <==> i < 160 && Pow2(i) <= Gap(self, id) < Pow2(i + 1)
    ensures BucketIndex(self, id) == None <==> id == self
  {
    if id == self {
      NoBucketForSelf(self);
    } else {
      var k := GapInOctave(self, id);
      InOneOctave(Gap(self, id), k, i);
    }
  }

  lemma InOneOctave(v: nat, k: nat, i: nat)
    requires Pow2(k) <= v < Pow2(k + 1)
    ensures i == k <==> Pow2(i) <= v < Pow2(i + 1)
  {
    if i < k {
      PowMonotone(i + 1, k);
    } else if k < i {
      PowMonotone(k + 1, i);
    }
  }
}
