/**
 Bitmaps (lib/kernel/bitmap.c): one bit per resource, packed eight to a byte and scanned for the
 leftmost run of clear bits.

 The value-level part (`IsRun`, `Leftmost`) speaks about `seq<bool>`; the other modules use it as
 the meaning of a scan.  The class is the packed representation.
 */
module Bitmap {

  /** The `cnt` bits from `s` exist and are all clear. */
  ghost predicate IsRun(bits: seq<bool>, s: int, cnt: nat) {
    0 <= s && s + cnt <= |bits| && forall i :: s <= i < s + cnt ==> !bits[i]
  }

  /** `r` is the start of the leftmost run of `cnt` clear bits, or -1 if there is none. */
  ghost predicate Leftmost(bits: seq<bool>, cnt: nat, r: int) {
    if r == -1 then forall s :: !IsRun(bits, s, cnt)
    else IsRun(bits, r, cnt) && forall s | s < r :: !IsRun(bits, s, cnt)
  }

  /** No bit is clear. */
  ghost predicate Full(bits: seq<bool>) {
    forall i :: 0 <= i < |bits| ==> bits[i]
  }

  /** bitmap_scan on the unpacked bits, confined to the bitmap.  The assertion behind the first loop
      halts the kernel exactly if no bit is clear. */
  method ScanBits(bits: seq<bool>, cnt: nat) returns (halts: bool, r: int)
    requires cnt > 0
    ensures halts <==> Full(bits)
    ensures Leftmost(bits, cnt, r) && (halts ==> r == -1)
  {
    halts := true;
    var n, i := 0, 0;
    while i < |bits|
      invariant n <= i <= |bits| && n < cnt
      invariant halts <==> forall j :: 0 <= j < i ==> bits[j]
      invariant forall j :: i - n <= j < i ==> !bits[j]
      invariant n < i ==> bits[i - n - 1]
      invariant forall s :: s + cnt <= i ==> !IsRun(bits, s, cnt)
    {
      if bits[i] {
        n := 0;
      } else {
        halts := false;
        n := n + 1;
        if n == cnt {
          r := i - n + 1;
          assert forall s | s < r :: !IsRun(bits, s, cnt);
          return;
        }
      }
      i := i + 1;
    }
    r := -1;
  }

  /** A scan for one bit fails only if all are set. */
  lemma OneBit(bits: seq<bool>, r: int)
    requires Leftmost(bits, 1, r)
    ensures r != -1 <==> exists b :: 0 <= b < |bits| && !bits[b]
    ensures r != -1 ==> 0 <= r < |bits| && !bits[r] && forall b :: 0 <= b < r ==> bits[b]
  {
    forall b | 0 <= b < |bits| && !bits[b] ensures IsRun(bits, b, 1) {
    }
    assert r != -1 ==> 0 <= r < |bits| && !bits[r];
  }

  /** There is one leftmost run at most. */
  lemma LeftmostOnce(bits: seq<bool>, cnt: nat, q: nat, r: nat)
    requires Leftmost(bits, cnt, q) && Leftmost(bits, cnt, r)
    ensures q == r
  {
    assert IsRun(bits, q, cnt) && IsRun(bits, r, cnt);
  }

  /** Clear bits among the first `n`. */
  function CountFree(bits: seq<bool>, n: nat): (c: nat)
    requires n <= |bits|
    ensures c <= n
  {
    if n == 0 then 0 else CountFree(bits, n - 1) + if bits[n - 1] then 0 else 1
  }

  lemma {:induction false} SomeFree(bits: seq<bool>, n: nat)
    requires n <= |bits|
    ensures CountFree(bits, n) > 0 <==> exists b :: 0 <= b < n && !bits[b]
  {
    if n > 0 { SomeFree(bits, n - 1); }
  }

  lemma {:induction false} TakeOne(bits: seq<bool>, n: nat, b: nat)
    requires n <= |bits| && b < |bits| && !bits[b]
    ensures CountFree(bits[b := true], n) == CountFree(bits, n) - if b < n then 1 else 0
  {
    if n > 0 { TakeOne(bits, n - 1, b); }
  }

  /** The bits of the first `n` positions of a packed bitmap. */
  ghost function Unpack(bytes: seq<bv8>, n: nat): (bits: seq<bool>)
    requires n <= 8 * |bytes|
    ensures |bits| == n
  {
    if n == 0 then [] else Unpack(bytes, n - 1) + [BitOf(bytes[(n - 1) / 8], (n - 1) % 8)]
  }

  lemma {:induction false} UnpackAt(bytes: seq<bv8>, n: nat, i: nat)
    requires i < n <= 8 * |bytes|
    ensures Unpack(bytes, n)[i] == BitOf(bytes[i / 8], i % 8)
  {
    if i < n - 1 { UnpackAt(bytes, n - 1, i); }
  }

  predicate BitOf(b: bv8, k: nat)
    requires k < 8
  {
    b & Mask(k) != 0
  }

  /** BITMAP_MASK << k */
  function Mask(k: nat): bv8
    requires k < 8
  {
    match k
    case 0 => 1 case 1 => 2 case 2 => 4 case 3 => 8
    case 4 => 16 case 5 => 32 case 6 => 64 case _ => 128
  }

  lemma SetMask(b: bv8, k: nat, j: nat)
    requires k < 8 && j < 8
    ensures BitOf(b | Mask(k), j) == (j == k || BitOf(b, j))
    ensures BitOf(b & !Mask(k), j) == (j != k && BitOf(b, j))
  {
    if j == k {
      assert (b & !Mask(k)) & Mask(k) == 0;
      assert (b | Mask(k)) & Mask(k) == Mask(k);
    } else {
      assert Mask(k) & Mask(j) == 0;
      MaskApart(b, Mask(k), Mask(j));
    }
  }

  lemma MaskApart(b: bv8, m: bv8, n: bv8)
    requires m & n == 0
    ensures (b | m) & n == b & n && (b & !m) & n == b & n
  {
  }

  lemma UnpackSet(bytes: seq<bv8>, n: nat, i: nat, value: bool, b: bv8)
    requires i < n <= 8 * |bytes|
    requires b == if value then bytes[i / 8] | Mask(i % 8) else bytes[i / 8] & !Mask(i % 8)
    ensures Unpack(bytes[i / 8 := b], n) == Unpack(bytes, n)[i := value]
  {
    var was, now := Unpack(bytes, n), Unpack(bytes[i / 8 := b], n);
    forall j | 0 <= j < n
      ensures now[j] == was[i := value][j]
    {
      UnpackAt(bytes, n, j);
      UnpackAt(bytes[i / 8 := b], n, j);
      if j / 8 == i / 8 {
        SetMask(bytes[i / 8], i % 8, j % 8);
      }
    }
  }

  /** A byte is 0xff exactly when its eight bits are set. */
  lemma FullByte(b: bv8)
    ensures b == 0xff <==> forall k: nat | k < 8 :: BitOf(b, k)
  {
    if forall k: nat | k < 8 :: BitOf(b, k) {
      assert BitOf(b, 0) && BitOf(b, 1) && BitOf(b, 2) && BitOf(b, 3);
      assert BitOf(b, 4) && BitOf(b, 5) && BitOf(b, 6) && BitOf(b, 7);
    }
  }

  /**
   struct bitmap.  `mem` is the memory from the start of the bitmap onward; the bitmap itself is the
   first `len` bytes and at least one byte of foreign memory follows it.
   */
  class Bitmap {
    const mem: array<bv8>
    const len: nat

    ghost predicate Valid()
    {
      len < mem.Length
    }

    /** The bits of the bitmap proper. */
    ghost function Bits(): (bits: seq<bool>)
      requires Valid()
      reads mem
    {
      Unpack(mem[..], 8 * len)
    }

    /** The bits of the bitmap and the first bit of the memory behind it. */
    ghost function BitsAndNext(): (bits: seq<bool>)
      requires Valid()
      reads mem
      ensures Bits() <= bits
    {
      Unpack(mem[..], 8 * len + 1)
    }

    constructor (mem: array<bv8>, len: nat)
      requires len < mem.Length
      ensures Valid() && this.mem == mem && this.len == len
    {
      this.mem := mem;
      this.len := len;
    }

    method Init()
      requires Valid()
      modifies mem
      ensures Bits() == seq(8 * len, _ => false)
      ensures mem[len..] == old(mem[len..])
    {
      for i := 0 to len
        invariant forall j :: 0 <= j < i ==> mem[j] == 0
        invariant mem[len..] == old(mem[len..])
      {
        mem[i] := 0;
      }
      forall i: nat | i < 8 * len
        ensures !Bits()[i]
      {
        UnpackAt(mem[..], 8 * len, i);
      }
    }

    method ScanTest(i: nat) returns (b: bool)
      requires Valid() && i <= 8 * len
      ensures b == BitsAndNext()[i]
    {
      b := BitOf(mem[i / 8], i % 8);
      UnpackAt(mem[..], 8 * len + 1, i);
    }

    method Set(i: nat, value: bool)
      requires Valid() && i < 8 * len
      modifies mem
      ensures Bits() == old(Bits())[i := value]
      ensures mem[len..] == old(mem[len..])
    {
      var k, odd := i / 8, i % 8;
      var b := if value then mem[k] | Mask(odd) else mem[k] & !Mask(odd);
      UnpackSet(mem[..], 8 * len, i, value, b);
      mem[k] := b;
      assert mem[..] == old(mem[..])[k := b];
    }

    /** First byte that is not 0xff, then first clear bit in it. */
    method FirstClear() returns (r: nat)
      requires Valid()
      requires exists i :: 0 <= i < 8 * len && !Bits()[i]
      ensures r < 8 * len && !Bits()[r]
      ensures forall i :: 0 <= i < r ==> Bits()[i]
    {
      ghost var bits := Bits();
      ghost var w :| 0 <= w < 8 * len && !bits[w];
      var k := 0;
      while mem[k] == 0xff && k < len
        invariant 0 <= 8 * k <= w
        invariant forall i :: 0 <= i < 8 * k ==> bits[i]
      {
        ByteBits(bits, k, 8);
        assert 8 * k + 8 <= w;
        k := k + 1;
      }
      FullByte(mem[k]);
      ghost var j: nat :| j < 8 && !BitOf(mem[k], j);
      var bit := 0;
      while mem[k] & Mask(bit) != 0
        invariant bit <= j
        invariant forall j: nat :: j < bit ==> BitOf(mem[k], j)
        decreases j - bit
      {
        bit := bit + 1;
      }
      r := 8 * k + bit;
      ByteBits(bits, k, bit);
    }

    /** If the low `n` bits of byte `k` are set, so are those bits of the bitmap; and conversely. */
    lemma ByteBits(bits: seq<bool>, k: nat, n: nat)
      requires Valid() && k < len && n <= 8 && bits == Bits()
      requires (n == 8 && mem[k] == 0xff) || forall j: nat :: j < n ==> BitOf(mem[k], j)
      ensures forall i :: 8 * k <= i < 8 * k + n ==> bits[i]
      ensures n < 8 ==> bits[8 * k + n] == BitOf(mem[k], n)
    {
      FullByte(mem[k]);
      forall i | 8 * k <= i < 8 * k + n
        ensures bits[i]
      {
        UnpackAt(mem[..], 8 * len, i);
        assert i / 8 == k && i % 8 == i - 8 * k;
      }
      if n < 8 {
        UnpackAt(mem[..], 8 * len, 8 * k + n);
      }
    }

    /**
     bitmap_scan.  For a single bit the answer is exact.  For longer runs the loop also tests the
     bit just behind the bitmap, so the answer is the leftmost run of the extended bitmap.
     */
    method Scan(cnt: nat) returns (r: int)
      requires Valid() && cnt >= 1
      requires exists i :: 0 <= i < 8 * len && !Bits()[i]
      ensures Leftmost(if cnt == 1 then Bits() else BitsAndNext(), cnt, r)
    {
      var first := FirstClear();
      if cnt == 1 {
        r := first;
        assert forall s | s < r :: IsRun(Bits(), s, 1) ==> !Bits()[s];
        return;
      }
      r := ScanRun(first, cnt);
    }

    /** The second half of bitmap_scan: count consecutive clear bits after the first clear one. */
    method ScanRun(first: nat, cnt: nat) returns (r: int)
      requires Valid() && cnt >= 2 && first < 8 * len
      requires !Bits()[first] && forall i :: 0 <= i < first ==> Bits()[i]
      ensures Leftmost(BitsAndNext(), cnt, r)
    {
      ghost var bits := BitsAndNext();
      FirstStreak(bits, Bits(), first, cnt);
      var left := 8 * len - first;
      var next := first + 1;
      var count := 1;
      while left > 0
        invariant 0 <= left && next == 8 * len - left + 1
        invariant first < next
        invariant count < cnt && Streak(bits, next, count)
        invariant NoRun(bits, next, cnt)
      {
        left := left - 1;
        var b := ScanTest(next);
        count := if !b then count + 1 else 0;
        NextStreak(bits, next, if b then -1 else count - 1, cnt);
        if count == cnt {
          r := next - cnt + 1;
          return;
        }
        next := next + 1;
      }
      r := -1;
    }
  }

  /** The clear bits that end just before `next` number exactly `count`. */
  ghost predicate Streak(bits: seq<bool>, next: nat, count: nat) {
    next <= |bits| && IsRun(bits, next - count, count) && (count < next ==> bits[next - count - 1])
  }

  /** No run of `cnt` clear bits ends at or before `n`. */
  ghost predicate NoRun(bits: seq<bool>, n: nat, cnt: nat) {
    forall s :: s + cnt <= n ==> !IsRun(bits, s, cnt)
  }

  lemma FirstStreak(bits: seq<bool>, inner: seq<bool>, first: nat, cnt: nat)
    requires inner <= bits && first < |inner| && cnt >= 2
    requires !inner[first] && forall i :: 0 <= i < first ==> inner[i]
    ensures Streak(bits, first + 1, 1) && NoRun(bits, first + 1, cnt)
  {
    assert forall s | s < first :: IsRun(bits, s, cnt) ==> !bits[s];
  }

  /** One more bit: a clear one extends the streak of `count`, a set one starts over. */
  lemma NextStreak(bits: seq<bool>, next: nat, count: int, cnt: nat)
    requires next < |bits| && NoRun(bits, next, cnt) && count + 1 <= cnt
    requires if bits[next] then count == -1 else 0 <= count && Streak(bits, next, count)
    requires cnt >= 2
    ensures Streak(bits, next + 1, count + 1)
    ensures count + 1 < cnt ==> NoRun(bits, next + 1, cnt)
    ensures count + 1 == cnt ==> Leftmost(bits, cnt, next + 1 - cnt)
  {
    if count + 1 < cnt <= next + 1 {
      assert bits[next - count - 1];
      assert !IsRun(bits, next + 1 - cnt, cnt);
    }
  }

  /**
   With runs of two or more the scan of the extended bitmap is a right answer for the bitmap itself
   exactly when it does not use the foreign bit: some run lies inside, or the foreign bit is set, or
   the bits in front of it are not a run one short of the request.
   */
  lemma ScanInside(bits: seq<bool>, next: bool, cnt: nat, r: int)
    requires cnt >= 2 && Leftmost(bits + [next], cnt, r)
    ensures Leftmost(bits, cnt, r) <==>
            (exists s :: IsRun(bits, s, cnt)) || next || !IsRun(bits, |bits| - cnt + 1, cnt - 1)
  {
    var ext := bits + [next];
    forall s | s + cnt <= |bits|
      ensures IsRun(bits, s, cnt) <==> IsRun(ext, s, cnt)
    {
      RunPrefix(bits, next, s, cnt);
    }
    var edge := |bits| - cnt + 1;
    assert IsRun(ext, edge, cnt) <==> !next && IsRun(bits, edge, cnt - 1) by {
      EdgeRun(bits, next, cnt);
    }
    if s0 :| IsRun(bits, s0, cnt) {
      assert IsRun(ext, s0, cnt);
      assert r != -1 && r <= s0;
      assert IsRun(bits, r, cnt);
    } else if r != -1 {
      assert !IsRun(bits, r, cnt);
      assert r == edge;
    }
  }

  lemma RunPrefix(bits: seq<bool>, next: bool, s: int, cnt: nat)
    requires s + cnt <= |bits|
    ensures IsRun(bits, s, cnt) <==> IsRun(bits + [next], s, cnt)
  {
    if 0 <= s {
      assert forall i :: s <= i < s + cnt ==> (bits + [next])[i] == bits[i];
    }
  }

  lemma EdgeRun(bits: seq<bool>, next: bool, cnt: nat)
    requires cnt >= 2
    ensures IsRun(bits + [next], |bits| - cnt + 1, cnt) <==> !next && IsRun(bits, |bits| - cnt + 1, cnt - 1)
  {
    var s := |bits| - cnt + 1;
    if 0 <= s {
      assert forall i :: s <= i < s + cnt - 1 ==> (bits + [next])[i] == bits[i];
      assert (bits + [next])[s + cnt - 1] == next;
    }
  }

  /** A bitmap whose last bit is clear and whose neighbour starts with a clear bit: a request for two
      bits is answered with a run that ends outside. */
  lemma ScanRunsPastTheEnd()
    ensures var bits := seq(7, _ => true) + [false];
            Leftmost(bits + [false], 2, 7) && !Leftmost(bits, 2, 7)
  {
    var bits := seq(7, _ => true) + [false];
    var ext := bits + [false];
    assert IsRun(ext, 7, 2);
    forall s | s < 7
      ensures !IsRun(ext, s, 2)
    {
      if 0 <= s { assert ext[s]; }
    }
  }
}
