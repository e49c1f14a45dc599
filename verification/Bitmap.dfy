/** The bitmap: bytes in memory, read as a sequence of bits. */
module Bitmap {
  const TWO_32: int := 0x1_0000_0000

  datatype Status = Success | Error | OutOfResource | InvalidParam

  /** 1 << k, as a byte. */
  function Mask(k: nat): bv8
    requires k < 8
  {
    if k == 0 then 1 else if k == 1 then 2 else if k == 2 then 4 else if k == 3 then 8
    else if k == 4 then 16 else if k == 5 then 32 else if k == 6 then 64 else 128
  }

  predicate Bit(b: bv8, k: nat)
    requires k < 8
  {
    b & Mask(k) != 0
  }

  /** Bit k of a byte is 1 shifted left k times. */
  lemma MaskIsShift(k: nat)
    requires k < 8
    ensures Mask(k) == (1 as bv8) << k
  {
  }

  lemma OrSetsBit(b: bv8, k: nat, j: nat)
    requires k < 8 && j < 8
    ensures Bit(b | Mask(k), j) == (j == k || Bit(b, j))
  {
  }

  lemma AndClearsBit(b: bv8, k: nat, j: nat)
    requires k < 8 && j < 8
    ensures Bit(b & !Mask(k), j) == (j != k && Bit(b, j))
  {
  }

  lemma UniformByte(b: bv8, k: nat)
    requires k < 8
    ensures b == 0 ==> !Bit(b, k)
    ensures b == 0xff ==> Bit(b, k)
  {
  }

  // ---------------------------------------------------------------- bit sequences

  /** The bits i, ..., i + cnt - 1 exist and all equal v. */
  ghost predicate Run(bits: seq<bool>, v: bool, i: int, cnt: nat) {
    0 <= i && i + cnt <= |bits| && forall k :: i <= k < i + cnt ==> bits[k] == v
  }

  ghost predicate LeastRun(bits: seq<bool>, v: bool, i: int, cnt: nat) {
    Run(bits, v, i, cnt) && forall j :: 0 <= j < i ==> !Run(bits, v, j, cnt)
  }

  ghost predicate HasRun(bits: seq<bool>, v: bool, cnt: nat) {
    exists i :: Run(bits, v, i, cnt)
  }

  class BitMap {
    const bytes: array<bv8>
    var len: nat     // btmp_bytes_len

    ghost predicate Valid()
      reads this
    {
      len <= bytes.Length
    }

    ghost function Bits(): (b: seq<bool>)
      reads this, bytes
      requires Valid()
      ensures |b| == len * 8
      ensures forall i :: 0 <= i < len * 8 ==> b[i] == Bit(bytes[i / 8], i % 8)
    {
      seq(len * 8, i requires 0 <= i < len * 8 reads this, bytes requires Valid() => Bit(bytes[i / 8], i % 8))
    }

    constructor (bytes: array<bv8>, len: nat)
      requires len <= bytes.Length
      ensures Valid() && this.bytes == bytes && this.len == len
    {
      this.bytes := bytes;
      this.len := len;
    }

    /** -1 past the end, otherwise the bit. */
    method ScanTest(bitIndex: nat) returns (r: int)
      requires Valid()
      ensures r == if bitIndex >= len * 8 then -1 else if Bits()[bitIndex] then 1 else 0
    {
      var byteIndex, bitOdd := bitIndex / 8, bitIndex % 8;
      if byteIndex >= len {
        return -1;
      }
      r := if bytes[byteIndex] & Mask(bitOdd) != 0 then 1 else 0;
    }

    method SetBit(bitIndex: nat, value: nat)
      requires Valid()
      modifies bytes
      ensures Bits() == if bitIndex < len * 8 && value < 2 then old(Bits())[bitIndex := value == 1] else old(Bits())
    {
      var byteIndex, bitOdd := bitIndex / 8, bitIndex % 8;
      if byteIndex >= len {
        return;
      }
      ghost var before := Bits();
      var b := bytes[byteIndex];
      forall j: nat | j < 8
        ensures Bit(b | Mask(bitOdd), j) == (j == bitOdd || Bit(b, j))
        ensures Bit(b & !Mask(bitOdd), j) == (j != bitOdd && Bit(b, j))
      {
        OrSetsBit(b, bitOdd, j);
        AndClearsBit(b, bitOdd, j);
      }
      hide Bit, Mask;
      if value == 0 {
        bytes[byteIndex] := b & !Mask(bitOdd);
      } else if value == 1 {
        bytes[byteIndex] := b | Mask(bitOdd);
      }
      if value < 2 {
        forall i | 0 <= i < len * 8
          ensures Bits()[i] == before[bitIndex := value == 1][i]
        {
          assert i / 8 == byteIndex && i % 8 == bitOdd ==> i == bitIndex;
        }
      }
    }

    /** The number of leading bytes without a single bit of the wanted value. */
    method SkipFullBytes(value: nat) returns (byteIndex: nat)
      requires Valid() && value < 2
      ensures byteIndex <= len
      ensures forall k :: 0 <= k < byteIndex * 8 ==> Bits()[k] != (value == 1)
    {
      var v := value == 1;
      var byteFull: bv8 := if value == 0 then 0xff else 0;
      byteIndex := 0;
      while byteIndex < len && bytes[byteIndex] == byteFull
        invariant byteIndex <= len
        invariant forall k :: 0 <= k < byteIndex * 8 ==> Bits()[k] != v
      {
        forall k | byteIndex * 8 <= k < byteIndex * 8 + 8
          ensures Bits()[k] != v
        {
          assert k / 8 == byteIndex;
          UniformByte(bytes[byteIndex], k % 8);
        }
        byteIndex := byteIndex + 1;
      }
    }

    /** The inner loop of bitmap_alloc: counts matching bits, up to cnt or the end of the map. */
    method CountMatches(bitIndex: nat, value: nat, cnt: nat) returns (atEnd: bool, freeBits: nat)
      requires Valid() && value < 2 && bitIndex < len * 8
      ensures freeBits <= cnt && bitIndex + freeBits <= len * 8
      ensures forall k :: bitIndex <= k < bitIndex + freeBits ==> Bits()[k] == (value == 1)
      ensures atEnd ==> freeBits < cnt && bitIndex + freeBits == len * 8
      ensures !atEnd && freeBits < cnt ==>
                bitIndex + freeBits < len * 8 && Bits()[bitIndex + freeBits] != (value == 1)
    {
      freeBits := 0;
      while freeBits < cnt
        invariant freeBits <= cnt && bitIndex + freeBits <= len * 8
        invariant forall k :: bitIndex <= k < bitIndex + freeBits ==> Bits()[k] == (value == 1)
      {
        var current := ScanTest(bitIndex + freeBits);
        if current < 0 {
          return true, freeBits;
        }
        if current != 0 && value == 0 { break; }
        if current == 0 && value == 1 { break; }
        freeBits := freeBits + 1;
      }
      return false, freeBits;
    }

    /** The outer loop of bitmap_alloc: on a mismatch, the search resumes behind it. */
    method Search(from: nat, value: nat, cnt: nat) returns (status: Status, start: nat)
      requires Valid() && value < 2 && from < len * 8
      requires NoRunBelow(Bits(), value == 1, from, cnt) && (from > 0 ==> Bits()[from - 1] != (value == 1))
      ensures status in {Success, Error, OutOfResource}
      ensures status == Success ==>
                start + cnt <= len * 8 && NoRunBelow(Bits(), value == 1, start, cnt) &&
                    Run(Bits(), value == 1, start, cnt)
      ensures status != Success && 0 < cnt ==> !HasRun(Bits(), value == 1, cnt)
      ensures status != Success ==> (status == Error <==> Bits()[len * 8 - 1] == (value == 1))
    {
      hide Bit, Mask, NoRunBelow, HasRun;
      ghost var bits, v := Bits(), value == 1;
      start := from;
      while start < len * 8
        invariant start <= len * 8
        invariant NoRunBelow(bits, v, start, cnt)
        invariant Bits() == bits
        invariant start > 0 ==> bits[start - 1] != v
      {
        var atEnd, freeBits := CountMatches(start, value, cnt);
        assert Bits() == bits;
        if atEnd {
          NoRunLeft(bits, v, start, freeBits, cnt);
          return Error, start;
        }
        if freeBits == cnt {
          return Success, start;
        }
        NoRunPastMismatch(bits, v, start, freeBits, cnt);
        start := start + freeBits + 1;
      }
      NoRunLeft(bits, v, start, 0, cnt);
      return OutOfResource, start;
    }

    /**
     Finds the least run of `cnt` bits equal to `value`, skipping whole bytes that cannot hold a
     match and jumping past mismatches. Success is reported exactly when such a run exists.
     */
    method Alloc(value: nat, cnt: nat) returns (status: Status, index: nat)
      requires Valid()
      ensures status == InvalidParam <==> value >= 2
      ensures value < 2 && 0 < cnt ==> (status == Success <==> HasRun(Bits(), value == 1, cnt))
      ensures value < 2 && 0 < cnt && status == Success ==>
                exists i: nat :: index == i % TWO_32 && LeastRun(Bits(), value == 1, i, cnt)
      ensures value < 2 && 0 < cnt && status != Success ==>
                (status == Error <==> 0 < len && Bits()[len * 8 - 1] == (value == 1))
    {
      index := 0;
      if value != 0 && value != 1 {
        return InvalidParam, index;
      }
      ghost var bits, v := Bits(), value == 1;
      var byteIndex := SkipFullBytes(value);
      assert Bits() == bits;
      NoRunInMismatches(bits, v, byteIndex * 8, cnt);
      hide Bit, Mask;
      if byteIndex >= len {
        NoRunLeft(bits, v, byteIndex * 8, 0, cnt);
        return OutOfResource, index;
      }
      var start;
      status, start := Search(byteIndex * 8, value, cnt);
      assert Bits() == bits;
      if status == Success && 0 < cnt {
        FoundRun(bits, v, start, cnt);
      }
      hide HasRun, LeastRun, Run, NoRunBelow;
      index := if status == Success then start % TWO_32 else 0;
    }
  }

  /** No run starts below n. */
  ghost predicate NoRunBelow(bits: seq<bool>, v: bool, n: nat, cnt: nat) {
    0 < cnt ==> forall j :: 0 <= j < n ==> !Run(bits, v, j, cnt)
  }

  lemma NoRunInMismatches(bits: seq<bool>, v: bool, n: nat, cnt: nat)
    requires n <= |bits| && forall k :: 0 <= k < n ==> bits[k] != v
    ensures NoRunBelow(bits, v, n, cnt)
  {
    forall j | 0 < cnt && 0 <= j < n
      ensures !Run(bits, v, j, cnt)
    {
      assert bits[j] != v;
    }
  }

  /** A mismatch within the next cnt bits rules out every start up to and including itself. */
  lemma NoRunPastMismatch(bits: seq<bool>, v: bool, b: nat, f: nat, cnt: nat)
    requires NoRunBelow(bits, v, b, cnt) && f < cnt && b + f < |bits| && bits[b + f] != v
    ensures NoRunBelow(bits, v, b + f + 1, cnt)
  {
    forall j | b <= j <= b + f
      ensures !Run(bits, v, j, cnt)
    {
      assert bits[b + f] != v;
    }
  }

  /** With fewer than cnt bits left, there is no run at all. */
  lemma NoRunLeft(bits: seq<bool>, v: bool, b: nat, f: nat, cnt: nat)
    requires NoRunBelow(bits, v, b, cnt) && b + f == |bits| && (0 < cnt ==> f < cnt)
    ensures 0 < cnt ==> !HasRun(bits, v, cnt)
  {
  }

  lemma FoundRun(bits: seq<bool>, v: bool, b: nat, cnt: nat)
    requires 0 < cnt && NoRunBelow(bits, v, b, cnt) && Run(bits, v, b, cnt)
    ensures HasRun(bits, v, cnt) && LeastRun(bits, v, b, cnt)
  {
  }
}
