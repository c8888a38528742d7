/** Values that may be absent and calls that may fail. */
module Wrappers {
  datatype Option<+T> = None | Some(value: T)

  datatype Result<+T, +E> = Ok(value: T) | Err(error: E) {
    predicate IsFailure() {
      Err?
    }

    function PropagateFailure<U>(): Result<U, E>
      requires Err?
    {
      Err(error)
    }

    function Extract(): T
      requires Ok?
    {
      value
    }
  }
}

/** Bytes, and the numbers that Rust stores in fixed-width words. */
module Bytes {
  // A SHA-1 hash.
  type Digest = seq<u8>

  newtype u8 = x: int | 0 <= x < 256

  const U16_MAX: nat := 0xFFFF
  const U32_MAX: nat := 0xFFFF_FFFF

  type u16 = x: nat | x <= U16_MAX
  type u32 = x: nat | x <= U32_MAX

  function Zeros(n: nat): seq<u8> {
    seq(n, _ => 0)
  }

  // The bytes of `buf` with `data` written over them at `at`.
  function Patch<T>(buf: seq<T>, at: nat, data: seq<T>): (r: seq<T>)
    requires at + |data| <= |buf|
    ensures |r| == |buf|
    ensures r[at..at + |data|] == data
  {
    buf[..at] + data + buf[at + |data|..]
  }

  lemma Assoc<T>(a: seq<T>, b: seq<T>, c: seq<T>)
    ensures a + b + c == a + (b + c)
    ensures a + [] == a == [] + a
  {
  }

  lemma SliceOfSlice<T>(buf: seq<T>, from: nat, to: nat, a: nat, b: nat)
    requires from <= to <= |buf| && a <= b <= to - from
    ensures buf[from..to][a..b] == buf[from + a..from + b]
  {
    var part := buf[from..to];
    assert forall i {:trigger buf[i]} :: from + a <= i < from + b ==> part[i - from] == buf[i];
  }

  lemma PatchElsewhere<T>(buf: seq<T>, at: nat, data: seq<T>, from: nat, to: nat)
    requires at + |data| <= |buf| && from <= to <= |buf|
    requires to <= at || at + |data| <= from
    ensures Patch(buf, at, data)[from..to] == buf[from..to]
  {
    forall i | from <= i < to ensures Patch(buf, at, data)[i] == buf[i] {
      if at + |data| <= i {
        assert buf[at + |data|..][i - (at + |data|)] == buf[i];
      } else {
        assert buf[..at][i] == buf[i];
      }
    }
  }
}

/** Facts about the size of finite sets of numbers. */
module FiniteSets {
  function Below(n: nat): (s: set<nat>)
    ensures forall i: nat :: i in s <==> i < n
  {
    if n == 0 then {} else Below(n - 1) + {n - 1}
  }

  lemma {:induction false} BelowSize(n: nat)
    ensures |Below(n)| == n
  {
    if n == 0 {
      assert Below(0) == {};
    } else {
      BelowSize(n - 1);
      assert Below(n) == Below(n - 1) + {n - 1};
    }
  }

  lemma {:induction false} SubsetSize<T>(small: set<T>, large: set<T>)
    requires small <= large
    ensures |small| <= |large|
    ensures |small| == |large| ==> small == large
  {
    if small != {} {
      var x :| x in small;
      SubsetSize(small - {x}, large - {x});
    }
  }

  // A set of numbers below n is all of them exactly when it has n members.
  lemma FullSize(s: set<nat>, n: nat)
    requires s <= Below(n)
    ensures |s| <= n
    ensures |s| == n <==> s == Below(n)
  {
    BelowSize(n);
    SubsetSize(s, Below(n));
  }

  // ---------- Lists without repetition ----------

  function SetOf<T>(s: seq<T>): set<T> {
    set x | x in s
  }

  ghost predicate Distinct<T>(s: seq<T>) {
    forall i, j :: 0 <= i < j < |s| ==> s[i] != s[j]
  }

  lemma {:induction false} DistinctSize<T>(s: seq<T>)
    ensures |SetOf(s)| <= |s|
    ensures Distinct(s) ==> |SetOf(s)| == |s|
  {
    if s == [] {
      assert SetOf(s) == {};
    } else {
      var last := |s| - 1;
      DistinctSize(s[..last]);
      assert SetOf(s) == SetOf(s[..last]) + {s[last]};
    }
  }
}

/** Division with remainder. */
module Arithmetic {
  // Division that rounds up.
  function CeilDiv(a: nat, b: nat): nat
    requires 0 < b
  {
    (a + b - 1) / b
  }

  lemma MulApart(a: nat, b: nat, n: nat)
    ensures a < b ==> a * n + n <= b * n
    ensures b < a ==> b * n + n <= a * n
    ensures a <= b ==> a * n <= b * n
  {
    if a < b {
      assert (a + 1) * n <= b * n;
    } else if b < a {
      assert (b + 1) * n <= a * n;
    }
  }

  lemma DivUnique(a: nat, n: nat, q: nat, r: nat)
    requires a == q * n + r && r < n
    ensures a / n == q && a % n == r
  {
    assert a == a / n * n + a % n;
    MulApart(q, a / n, n);
  }

  lemma ModShift(z: nat, q: nat, n: nat)
    requires 0 < n
    ensures (q * n + z) % n == z % n
  {
    var zq := z / n;
    assert q * n + z == (q + zq) * n + z % n by {
      assert z == zq * n + z % n;
      assert (q + zq) * n == q * n + zq * n;
    }
    DivUnique(q * n + z, n, q + zq, z % n);
  }

  lemma ModAdd(a: nat, i: nat, n: nat)
    requires 0 < n
    ensures (a % n + i) % n == (a + i) % n
  {
    ModShift(a % n + i, a / n, n);
    assert a / n * n + a % n == a;
  }
}

/** Powers of two and numbers in big-endian bytes. */
module Binary {
  import opened Bytes

  function Pow2(j: nat): (p: nat)
    ensures 0 < p
  {
    if j == 0 then 1 else 2 * Pow2(j - 1)
  }

  function Pow256(k: nat): (p: nat)
    ensures 0 < p
  {
    if k == 0 then 1 else 256 * Pow256(k - 1)
  }

  // The number in k bytes, the lowest last.
  function ToBe(n: nat, k: nat): (s: seq<u8>)
    ensures |s| == k
  {
    if k == 0 then [] else ToBe(n / 256, k - 1) + [(n % 256) as u8]
  }

  function FromBe(s: seq<u8>): nat {
    if s == [] then 0 else FromBe(s[..|s| - 1]) * 256 + s[|s| - 1] as nat
  }

  lemma {:induction false} FromOfToBe(n: nat, k: nat)
    requires n < Pow256(k)
    ensures FromBe(ToBe(n, k)) == n
  {
    if k > 0 {
      FromOfToBe(n / 256, k - 1);
      assert ToBe(n, k)[..k - 1] == ToBe(n / 256, k - 1);
    }
  }

  lemma {:induction false} ToOfFromBe(s: seq<u8>)
    ensures FromBe(s) < Pow256(|s|)
    ensures ToBe(FromBe(s), |s|) == s
  {
    if s != [] {
      ToOfFromBe(s[..|s| - 1]);
      assert s == s[..|s| - 1] + [s[|s| - 1]];
    }
  }
}

/** A stable sort, as a function. */
module Sorting {
  ghost predicate Sorted<T(!new)>(key: T -> nat, s: seq<T>) {
    forall i, j :: 0 <= i < j < |s| ==> key(s[i]) <= key(s[j])
  }

  // Behind the elements that are not larger, so that equals keep their order.
  function InsertByKey<T(!new)>(key: T -> nat, s: seq<T>, x: T): seq<T> {
    if s == [] then [x]
    else
      var last := |s| - 1;
      if key(x) < key(s[last]) then InsertByKey(key, s[..last], x) + [s[last]] else s + [x]
  }

  function SortByKey<T(!new)>(key: T -> nat, s: seq<T>): seq<T> {
    if s == [] then [] else InsertByKey(key, SortByKey(key, s[..|s| - 1]), s[|s| - 1])
  }

  function Take<T>(s: seq<T>, count: nat): (r: seq<T>)
    ensures |r| == if count < |s| then count else |s|
  {
    if count < |s| then s[..count] else s
  }

  lemma SortedAppend<T(!new)>(key: T -> nat, s: seq<T>, x: T)
    ensures Sorted(key, s + [x]) <==> Sorted(key, s) && forall y :: y in s ==> key(y) <= key(x)
  {
    var t := s + [x];
    if Sorted(key, t) {
      assert forall i :: 0 <= i < |s| ==> t[i] == s[i];
      forall y | y in s ensures key(y) <= key(x) {
        var i :| 0 <= i < |s| && s[i] == y;
        assert key(t[i]) <= key(t[|s|]);
      }
    }
  }

  lemma {:induction false} InsertKeeps<T(!new)>(key: T -> nat, s: seq<T>, x: T)
    requires Sorted(key, s)
    ensures Sorted(key, InsertByKey(key, s, x))
    ensures multiset(InsertByKey(key, s, x)) == multiset(s) + multiset{x}
  {
    if s == [] {
      assert Sorted(key, [x]);
    } else {
      var rest, y := s[..|s| - 1], s[|s| - 1];
      assert s == rest + [y];
      SortedAppend(key, rest, y);
      if key(x) < key(y) {
        InsertKeeps(key, rest, x);
        var front := InsertByKey(key, rest, x);
        forall z | z in front ensures key(z) <= key(y) {
          assert z in multiset(front);
          assert z == x || z in rest;
        }
        SortedAppend(key, front, y);
      } else {
        SortedAppend(key, s, x);
      }
    }
  }

  lemma {:induction false} SortWorks<T(!new)>(key: T -> nat, s: seq<T>)
    ensures Sorted(key, SortByKey(key, s))
    ensures multiset(SortByKey(key, s)) == multiset(s)
  {
    if s != [] {
      var rest, x := s[..|s| - 1], s[|s| - 1];
      assert multiset(s) == multiset(rest) + multiset{x} by {
        assert s == rest + [x];
      }
      SortWorks(key, rest);
      InsertKeeps(key, SortByKey(key, rest), x);
    }
  }

  lemma SameElements<T>(s: seq<T>, t: seq<T>)
    requires multiset(s) == multiset(t)
    ensures |s| == |t| && forall x :: x in s <==> x in t
  {
    assert |multiset(s)| == |s| && |multiset(t)| == |t|;
    forall x ensures x in s <==> x in t {
      assert x in multiset(s) <==> x in multiset(t);
    }
  }

  lemma TakeSorted<T(!new)>(key: T -> nat, t: seq<T>, count: nat)
    requires Sorted(key, t)
    ensures Sorted(key, Take(t, count)) && multiset(Take(t, count)) <= multiset(t)
    ensures forall a, b :: a in Take(t, count) && b in t && b !in Take(t, count) ==> key(a) <= key(b)
  {
    var r := Take(t, count);
    assert t == r + t[|r|..];
    forall a, b | a in r && b in t && b !in r ensures key(a) <= key(b) {
      var i :| 0 <= i < |r| && r[i] == a;
      var j :| 0 <= j < |t| && t[j] == b;
      assert r[i] == t[i] && |r| <= j;
    }
  }

  // The least elements, in order: none is larger than any left out.
  lemma TakeIsLeast<T(!new)>(key: T -> nat, s: seq<T>, count: nat)
    ensures var r := Take(SortByKey(key, s), count);
            && Sorted(key, r) && multiset(r) <= multiset(s) && |r| == (if count < |s| then count else |s|)
            && forall a, b :: a in r && b in s && b !in r ==> key(a) <= key(b)
  {
    SortWorks(key, s);
    SameElements(SortByKey(key, s), s);
    TakeSorted(key, SortByKey(key, s), count);
  }

  // No two places of the list have the same f.
  ghost predicate DistinctBy<T(!new), U>(f: T -> U, s: seq<T>) {
    forall i, j :: 0 <= i < j < |s| ==> f(s[i]) != f(s[j])
  }

  lemma {:induction false} OnceEach<T(!new), U>(f: T -> U, s: seq<T>)
    requires DistinctBy(f, s)
    ensures forall x :: multiset(s)[x] <= 1
  {
    if s != [] {
      var rest := s[..|s| - 1];
      assert s == rest + [s[|s| - 1]];
      OnceEach(f, rest);
      assert forall x :: x in rest <==> x in multiset(rest);
    }
  }

  lemma Twice<T>(r: seq<T>, i: nat, j: nat)
    requires i < j < |r| && r[i] == r[j]
    ensures 2 <= multiset(r)[r[i]]
  {
    var front, back := r[..j], r[j..];
    assert r == front + back && front[i] == r[i] && back[0] == r[j];
    assert r[i] in multiset(front) && r[i] in multiset(back);
  }

  lemma SameByKey<T(!new), U>(f: T -> U, s: seq<T>, x: T, y: T)
    requires DistinctBy(f, s) && x in s && y in s && f(x) == f(y)
    ensures x == y
  {
  }

  lemma DistinctInside<T(!new), U>(f: T -> U, s: seq<T>, r: seq<T>)
    requires DistinctBy(f, s) && multiset(r) <= multiset(s)
    ensures DistinctBy(f, r)
  {
    forall i, j | 0 <= i < j < |r| ensures f(r[i]) != f(r[j]) {
      assert r[i] in multiset(r) && r[j] in multiset(r);
      assert r[i] in multiset(s) && r[j] in multiset(s);
      if f(r[i]) == f(r[j]) {
        SameByKey(f, s, r[i], r[j]);
        OnceEach(f, s);
        Twice(r, i, j);
      }
    }
  }
}
