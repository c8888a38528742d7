/** The map of a peer's pieces: eight to a byte, the first in the highest bit. */
module BitfieldSpec {
  import opened Bytes
  import opened FiniteSets
  import opened Arithmetic
  import opened Binary

  // Bit j of a number, the lowest being bit 0.
  predicate Low(n: nat, j: nat) {
    if j == 0 then n % 2 == 1 else Low(n / 2, j - 1)
  }

  lemma {:induction false} RaiseBit(n: nat, j: nat, m: nat)
    requires j < m && n < Pow2(m) && !Low(n, j)
    ensures n + Pow2(j) < Pow2(m)
    ensures forall i: nat :: Low(n + Pow2(j), i) <==> i == j || Low(n, i)
    decreases j
  {
    if j > 0 {
      RaiseBit(n / 2, j - 1, m - 1);
      assert (n + Pow2(j)) / 2 == n / 2 + Pow2(j - 1);
      forall i: nat ensures Low(n + Pow2(j), i) <==> i == j || Low(n, i) {
        if i > 0 {
          assert Low(n + Pow2(j), i) == Low(n / 2 + Pow2(j - 1), i - 1);
        }
      }
    } else {
      assert (n + 1) / 2 == n / 2;
      assert Pow2(m) % 2 == 0;
    }
  }

  lemma HalfMod(n: nat, p: nat)
    requires 0 < p
    ensures n % (2 * p) == 0 <==> n % 2 == 0 && n / 2 % p == 0
  {
    if n % (2 * p) == 0 {
      var q := n / (2 * p);
      assert n == q * (2 * p) == 2 * (q * p);
      DivUnique(n / 2, p, q, 0);
    } else if n % 2 == 0 && n / 2 % p == 0 {
      var q := n / 2 / p;
      assert n == 2 * (q * p) == q * (2 * p);
      DivUnique(n, 2 * p, q, 0);
    }
  }

  ghost predicate AllClear(n: nat, s: nat) {
    forall i: nat :: i < s ==> !Low(n, i)
  }

  lemma {:induction false} ClearBits(n: nat, s: nat)
    ensures n % Pow2(s) == 0 <==> AllClear(n, s)
    decreases s
  {
    if s > 0 {
      ClearBits(n / 2, s - 1);
      HalfMod(n, Pow2(s - 1));
      if AllClear(n, s) {
        assert !Low(n, 0);
        forall i: nat | i < s - 1 ensures !Low(n / 2, i) {
          assert !Low(n, i + 1);
        }
      }
      if n % 2 == 0 && AllClear(n / 2, s - 1) {
        forall i: nat | i < s ensures !Low(n, i) {
          assert i == 0 || !Low(n / 2, i - 1);
        }
      }
    }
  }

  lemma {:induction false} SameBits(a: nat, b: nat, m: nat)
    requires a < Pow2(m) && b < Pow2(m) && forall i: nat :: i < m ==> (Low(a, i) <==> Low(b, i))
    ensures a == b
    decreases m
  {
    if m > 0 {
      assert Low(a, 0) <==> Low(b, 0);
      forall i: nat | i < m - 1 ensures Low(a / 2, i) <==> Low(b / 2, i) {
        assert Low(a, i + 1) <==> Low(b, i + 1);
      }
      SameBits(a / 2, b / 2, m - 1);
    }
  }

  // Bit k of a byte, the highest being bit 0.
  predicate Bit(b: u8, k: nat)
    requires k < 8
  {
    Low(b as nat, 7 - k)
  }

  lemma ByteBound()
    ensures Pow2(8) == 256
  {
  }

  function WithBit(b: u8, k: nat): (r: u8)
    requires k < 8
    ensures forall j: nat :: j < 8 ==> (Bit(r, j) <==> j == k || Bit(b, j))
  {
    if Bit(b, k) then b
    else
      ByteBound();
      RaiseBit(b as nat, 7 - k, 8);
      (b as nat + Pow2(7 - k)) as u8
  }

  // The lowest `spare` bits as a number.
  function LowBits(b: u8, spare: nat): nat {
    b as nat % Pow2(spare)
  }

  ghost predicate ClearFrom(b: u8, from: nat) {
    forall k: nat :: from <= k < 8 ==> !Bit(b, k)
  }

  lemma LowBitsAreClear(b: u8, spare: nat)
    requires spare < 8
    ensures LowBits(b, spare) == 0 <==> ClearFrom(b, 8 - spare)
  {
    ClearBits(b as nat, spare);
    if ClearFrom(b, 8 - spare) {
      forall i: nat {:trigger Low(b as nat, i)} | i < spare ensures !Low(b as nat, i) {
        var k := 7 - i;
        assert !Bit(b, k);
      }
    }
    if AllClear(b as nat, spare) {
      forall k: nat {:trigger Bit(b, k)} | 8 - spare <= k < 8 ensures !Bit(b, k) {
        assert !Low(b as nat, 7 - k);
      }
    }
  }

  function ByteCount(n: nat): nat {
    CeilDiv(n, 8)
  }

  predicate BitAt(bytes: seq<u8>, i: nat)
    requires i < 8 * |bytes|
  {
    Bit(bytes[i / 8], i % 8)
  }

  // The bytes of a map of n pieces: just enough of them, the rest of the last
  // one clear.
  ghost predicate WF(bytes: seq<u8>, n: nat) {
    |bytes| == ByteCount(n) && forall i: nat :: n <= i < 8 * |bytes| ==> !BitAt(bytes, i)
  }

  lemma Padding(wire: seq<u8>, n: nat)
    requires |wire| == ByteCount(n) && n < 8 * |wire|
    ensures WF(wire, n) <==> ClearFrom(wire[|wire| - 1], 8 - (8 * |wire| - n))
  {
    var last := |wire| - 1;
    if WF(wire, n) {
      forall k: nat {:trigger Bit(wire[last], k)} | n - 8 * last <= k < 8 ensures !Bit(wire[last], k) {
        assert !BitAt(wire, 8 * last + k);
        assert (8 * last + k) / 8 == last && (8 * last + k) % 8 == k;
      }
    }
    if ClearFrom(wire[last], n - 8 * last) {
      forall i: nat | n <= i < 8 * |wire| ensures !BitAt(wire, i) {
        assert i / 8 == last && i % 8 == i - 8 * last;
      }
    }
  }

  ghost function Pieces(bytes: seq<u8>, n: nat): set<nat>
    requires n <= 8 * |bytes|
  {
    set i: nat | i < n && BitAt(bytes, i)
  }

  function Ones(b: u8): nat {
    OnesBelow(b, 8)
  }

  function OnesBelow(b: u8, k: nat): nat
    requires k <= 8
  {
    if k == 0 then 0 else OnesBelow(b, k - 1) + if Bit(b, k - 1) then 1 else 0
  }

  function CountOnes(bytes: seq<u8>): nat {
    if bytes == [] then 0 else CountOnes(bytes[..|bytes| - 1]) + Ones(bytes[|bytes| - 1])
  }

  lemma OneMorePiece(bytes: seq<u8>, i: nat)
    requires i < 8 * |bytes|
    ensures |Pieces(bytes, i + 1)| == |Pieces(bytes, i)| + if BitAt(bytes, i) then 1 else 0
  {
    assert Pieces(bytes, i + 1) == if BitAt(bytes, i) then Pieces(bytes, i) + {i} else Pieces(bytes, i);
  }

  lemma {:induction false} PiecesInByte(bytes: seq<u8>, m: nat, k: nat)
    requires m < |bytes| && k <= 8
    ensures |Pieces(bytes, 8 * m + k)| == |Pieces(bytes, 8 * m)| + OnesBelow(bytes[m], k)
    decreases k
  {
    if k > 0 {
      PiecesInByte(bytes, m, k - 1);
      var i := 8 * m + k - 1;
      assert i / 8 == m && i % 8 == k - 1;
      OneMorePiece(bytes, i);
    }
  }

  lemma {:induction false} CountIsSize(bytes: seq<u8>)
    ensures CountOnes(bytes) == |Pieces(bytes, 8 * |bytes|)|
  {
    if bytes != [] {
      var m := |bytes| - 1;
      CountIsSize(bytes[..m]);
      assert Pieces(bytes[..m], 8 * m) == Pieces(bytes, 8 * m);
      PiecesInByte(bytes, m, 8);
    }
  }

  // The number of bits set is the number of pieces.
  lemma CountIsCardinality(bytes: seq<u8>, n: nat)
    requires WF(bytes, n)
    ensures CountOnes(bytes) == |Pieces(bytes, n)| <= n
    ensures CountOnes(bytes) == n <==> Pieces(bytes, n) == Below(n)
  {
    CountIsSize(bytes);
    assert Pieces(bytes, 8 * |bytes|) == Pieces(bytes, n);
    FullSize(Pieces(bytes, n), n);
  }

  lemma SameByte(a: u8, b: u8)
    requires forall k: nat :: k < 8 ==> (Bit(a, k) <==> Bit(b, k))
    ensures a == b
  {
    forall i: nat {:trigger Low(a as nat, i)} | i < 8 ensures Low(a as nat, i) <==> Low(b as nat, i) {
      var k := 7 - i;
      assert Bit(a, k) <==> Bit(b, k);
    }
    ByteBound();
    SameBits(a as nat, b as nat, 8);
  }

  lemma NonzeroHasBit(b: u8)
    ensures b == 0 <==> ClearFrom(b, 0)
  {
    ByteBound();
    ClearBits(0, 8);
    if ClearFrom(b, 0) {
      forall k: nat {:trigger Bit(b, k)} | k < 8 ensures Bit(b, k) <==> Bit(0, k) {
        assert !Low(0, 7 - k);
      }
      SameByte(b, 0);
    } else {
      assert b != 0 by {
        var k: nat :| k < 8 && Bit(b, k);
        assert !Low(0, 7 - k);
      }
    }
  }

  // Two maps of the same pieces are the same bytes.
  lemma PiecesDetermineBytes(a: seq<u8>, b: seq<u8>, n: nat)
    requires WF(a, n) && WF(b, n) && Pieces(a, n) == Pieces(b, n)
    ensures a == b
  {
    forall m: nat | m < |a| ensures a[m] == b[m] {
      forall k: nat {:trigger Bit(a[m], k)} | k < 8 ensures Bit(a[m], k) <==> Bit(b[m], k) {
        var i := 8 * m + k;
        assert i / 8 == m && i % 8 == k;
        assert BitAt(a, i) <==> BitAt(b, i) by {
          assert i in Pieces(a, n) <==> i in Pieces(b, n);
        }
      }
      SameByte(a[m], b[m]);
    }
  }
}

module Bitfields {
  import opened Wrappers
  import opened Bytes
  import opened FiniteSets
  import opened BitfieldSpec

  class Bitfield {
    var bytes: array<u8>
    const pieceCount: nat

    ghost predicate Valid()
      reads this, bytes
    {
      WF(bytes[..], pieceCount)
    }

    ghost function Set(): set<nat>
      reads this, bytes
      requires Valid()
    {
      Pieces(bytes[..], pieceCount)
    }

    constructor Empty(n: nat)
      ensures Valid() && fresh(bytes) && pieceCount == n && Set() == {}
    {
      pieceCount := n;
      bytes := new u8[ByteCount(n)](_ => 0);
      new;
      NonzeroHasBit(0);
      assert forall i: nat :: i < 8 * bytes.Length ==> !BitAt(bytes[..], i);
    }

    constructor Copy(wire: seq<u8>, n: nat)
      requires WF(wire, n)
      ensures Valid() && fresh(bytes) && pieceCount == n && bytes[..] == wire
    {
      pieceCount := n;
      bytes := new u8[|wire|](i requires 0 <= i < |wire| => wire[i]);
      new;
      assert bytes[..] == wire;
    }

    // A map from the wire is accepted exactly if it has the right length and
    // clear padding.
    static method FromWire(wire: seq<u8>, n: nat) returns (r: Result<Bitfield, string>)
      ensures r.Ok? <==> WF(wire, n)
      ensures r.Ok? ==> fresh(r.value) && fresh(r.value.bytes) && r.value.Valid()
                        && r.value.pieceCount == n && r.value.bytes[..] == wire
      ensures r.Err? ==> r.error == if |wire| != ByteCount(n) then "bitfield length" else "bitfield padding bits"
    {
      var expected := ByteCount(n);
      if |wire| != expected {
        return Err("bitfield length");
      }
      var spare := expected * 8 - n;
      if spare > 0 {
        LowBitsAreClear(wire[expected - 1], spare);
        Padding(wire, n);
        if LowBits(wire[expected - 1], spare) != 0 {
          return Err("bitfield padding bits");
        }
      }
      var b := new Bitfield.Copy(wire, n);
      return Ok(b);
    }

    method Has(index: u32) returns (r: bool)
      requires Valid()
      ensures r <==> index in Set()
    {
      r := index < pieceCount && Bit(bytes[index / 8], index % 8);
    }

    method Insert(index: u32)
      requires Valid()
      modifies bytes
      ensures Valid() && Set() == if index < pieceCount then old(Set()) + {index as nat} else old(Set())
    {
      if index < pieceCount {
        ghost var before := bytes[..];
        bytes[index / 8] := WithBit(bytes[index / 8], index % 8);
        forall i: nat | i < 8 * |before| ensures BitAt(bytes[..], i) <==> i == index || BitAt(before, i) {
          if i / 8 == index / 8 && i % 8 == index % 8 {
            assert i == i / 8 * 8 + i % 8 && index == index / 8 * 8 + index % 8;
          }
        }
      }
    }

    method IsEmpty() returns (r: bool)
      requires Valid()
      ensures r <==> Set() == {}
    {
      for k := 0 to bytes.Length
        invariant forall m :: 0 <= m < k ==> bytes[m] == 0
      {
        if bytes[k] != 0 {
          NonzeroHasBit(bytes[k]);
          var j: nat :| j < 8 && Bit(bytes[k], j);
          assert (8 * k + j) / 8 == k && (8 * k + j) % 8 == j;
          assert BitAt(bytes[..], 8 * k + j);
          assert 8 * k + j in Set();
          return false;
        }
      }
      NonzeroHasBit(0);
      assert forall i: nat :: i < 8 * bytes.Length ==> !BitAt(bytes[..], i);
      return true;
    }

    method CountSet() returns (count: nat)
      requires Valid()
      ensures count == |Set()|
      ensures count == pieceCount <==> Set() == Below(pieceCount)
    {
      count := 0;
      for k := 0 to bytes.Length
        invariant count == CountOnes(bytes[..k])
      {
        assert bytes[..k + 1][..k] == bytes[..k];
        count := count + Ones(bytes[k]);
      }
      assert bytes[..bytes.Length] == bytes[..];
      CountIsCardinality(bytes[..], pieceCount);
    }

    method IsFull() returns (r: bool)
      requires Valid()
      ensures r <==> pieceCount > 0 && Set() == Below(pieceCount)
    {
      if pieceCount == 0 {
        return false;
      }
      var count := CountSet();
      return count == pieceCount;
    }

    method WireBytes() returns (wire: seq<u8>)
      requires Valid()
      ensures WF(wire, pieceCount) && Pieces(wire, pieceCount) == Set()
    {
      wire := bytes[..];
    }
  }
}
