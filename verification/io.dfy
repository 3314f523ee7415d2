/**
 * The byte cursor of avm2/io/__init__.py: `MemoryViewReader`.
 *
 * Every read is given twice: as a reference function over (buffer, position)
 * that returns the value read and the position after it, and as a method of
 * the class `MemoryViewReader` that advances its `position` field and is
 * proved to agree with the reference function.
 */
module Io {
  import opened Wrappers

  type Byte = b: int | 0 <= b < 0x100

  function Pow2(k: nat): (r: nat)
    ensures r >= 1
  {
    if k == 0 then 1 else 2 * Pow2(k - 1)
  }

  lemma {:induction false} Pow2Add(a: nat, b: nat)
    ensures Pow2(a + b) == Pow2(a) * Pow2(b)
  {
    if a > 0 {
      Pow2Add(a - 1, b);
      assert Pow2(a + b) == 2 * Pow2(a - 1 + b);
    }
  }

  lemma Pow2Monotone(a: nat, b: nat)
    requires a <= b
    ensures Pow2(a) <= Pow2(b)
  {
    Pow2Add(a, b - a);
  }

  lemma MulNonneg(a: int, b: int)
    requires a >= 0 && b >= 0
    ensures a * b >= 0
  {
  }

  /** Euclidean division is determined by quotient and remainder. */
  lemma DivModUnique(v: int, p: int, q: int, r: int)
    requires p > 0 && 0 <= r < p && v == q * p + r
    ensures v / p == q && v % p == r
  {
    var q', r' := v / p, v % p;
    assert q' * p + r' == v;
    assert (q - q') * p == r' - r;
    if q' < q {
      MulNonneg(q - q' - 1, p);
    } else if q < q' {
      MulNonneg(q' - q - 1, p);
    }
  }

  /** The powers of two the reads use. */
  lemma Pow2Values()
    ensures Pow2(3) == 8 && Pow2(4) == 0x10 && Pow2(7) == 0x80 && Pow2(8) == 0x100
    ensures Pow2(16) == 0x1_0000 && Pow2(23) == 0x80_0000 && Pow2(24) == 0x100_0000
    ensures Pow2(28) == 0x1000_0000 && Pow2(31) == 0x8000_0000 && Pow2(32) == 0x1_0000_0000
    ensures Pow2(34) == 0x4_0000_0000 && Pow2(35) == 0x8_0000_0000
  {
    assert Pow2(2) == 4 by { assert Pow2(1) == 2; }
    assert Pow2(3) == 8;
    assert Pow2(4) == 0x10;
    Pow2Add(3, 4);
    Pow2Add(4, 4);
    Pow2Add(8, 8);
    Pow2Add(16, 7);
    Pow2Add(16, 8);
    Pow2Add(24, 4);
    Pow2Add(24, 7);
    Pow2Add(16, 16);
    Pow2Add(32, 2);
    Pow2Add(32, 3);
    assert Pow2(2) == 4;
  }

  /** The result of a read: the value and the position after it. */
  datatype Parsed<+T> = Parsed(value: T, next: nat)

  /**
   * A reader method that returned `res` and left the cursor at `position`
   * did what the reference read `spec` describes. After a failed read the
   * source abandons the reader, so the position is left unspecified there.
   */
  predicate Agrees<T(==)>(res: Result<T>, position: nat, spec: Result<Parsed<T>>) {
    match spec
    case Ok(p) => res == Ok(p.value) && position == p.next
    case Err(e) => res == Err(e)
  }

  /** `bytes` occur in `buf` at `pos`. */
  ghost predicate At(buf: seq<Byte>, pos: nat, bytes: seq<Byte>) {
    pos + |bytes| <= |buf| && buf[pos..pos + |bytes|] == bytes
  }

  lemma AtSplit(buf: seq<Byte>, pos: nat, a: seq<Byte>, b: seq<Byte>)
    requires At(buf, pos, a + b)
    ensures At(buf, pos, a) && At(buf, pos + |a|, b)
  {
    assert buf[pos..pos + |a|] == (a + b)[..|a|];
    assert buf[pos + |a|..pos + |a| + |b|] == (a + b)[|a|..];
  }

  // ---------------------------------------------------------------------------
  // Reference reads
  // ---------------------------------------------------------------------------

  function Min(a: int, b: int): int { if a <= b then a else b }

  /** `read(size)`: a slice of the memory view, clipped at its end. */
  function ReadBytes(buf: seq<Byte>, pos: nat, size: nat): (r: Parsed<seq<Byte>>)
    ensures |r.value| == if pos <= |buf| then Min(size, |buf| - pos) else 0
    ensures r.next == pos + |r.value|
    ensures pos <= |buf| ==> r.value == buf[pos..r.next]
  {
    if |buf| <= pos then Parsed([], pos)
    else if pos + size <= |buf| then Parsed(buf[pos..pos + size], pos + size)
    else Parsed(buf[pos..], |buf|)
  }

  /** `read_all()`: everything from the position on. */
  function ReadRest(buf: seq<Byte>, pos: nat): Parsed<seq<Byte>> {
    if |buf| <= pos then Parsed([], pos) else Parsed(buf[pos..], |buf|)
  }

  function U8(buf: seq<Byte>, pos: nat): Result<Parsed<Byte>> {
    if pos < |buf| then Ok(Parsed(buf[pos], pos + 1)) else Err(IndexError)
  }

  /** The unsigned little-endian value of `bytes`. */
  function LittleEndian(bytes: seq<Byte>): nat {
    if bytes == [] then 0 else bytes[0] + 0x100 * LittleEndian(bytes[1..])
  }

  /** `struct.unpack` of an `n`-byte little-endian unsigned integer at `pos`. */
  function FixedLE(buf: seq<Byte>, pos: nat, n: nat): Result<Parsed<nat>> {
    if pos + n <= |buf| then Ok(Parsed(LittleEndian(buf[pos..pos + n]), pos + n))
    else Err(StructError)
  }

  function U16(buf: seq<Byte>, pos: nat): Result<Parsed<nat>> { FixedLE(buf, pos, 2) }

  function U32(buf: seq<Byte>, pos: nat): Result<Parsed<nat>> { FixedLE(buf, pos, 4) }

  /**
   * `extend_sign(v, 1 << k)`: `(v & (mask - 1)) - (v & mask)`, that is the
   * low `k` bits of `v` minus bit `k` of `v` as a weight.
   */
  function ExtendSign(v: nat, k: nat): int {
    v % Pow2(k) - (if (v / Pow2(k)) % 2 == 1 then Pow2(k) else 0)
  }

  /** `(b & 0x7F) << shift`. */
  function Group(b: Byte, shift: nat): nat {
    (b % 0x80) * Pow2(shift)
  }

  /** What `read_int`'s loop produced: the value, the last shift `i` and the position after it. */
  datatype VarIntRead = VarIntRead(value: nat, shift: nat, next: nat)

  /**
   * `read_int`'s loop from its `k`-th byte on (shift `7 * k`), with `acc`
   * accumulated so far. The source combines the groups with `|`; the groups
   * occupy disjoint bits, so the model adds them.
   */
  function VarIntFrom(buf: seq<Byte>, pos: nat, k: nat, acc: nat): Result<VarIntRead>
    requires k < 5
    decreases 5 - k
  {
    if pos + k >= |buf| then Err(IndexError)
    else
      var b := buf[pos + k];
      var acc' := acc + Group(b, 7 * k);
      if b < 0x80 || k == 4 then Ok(VarIntRead(acc', 7 * k, pos + k + 1))
      else VarIntFrom(buf, pos, k + 1, acc')
  }

  /** One iteration of `read_int`'s loop, as the method performs it. */
  lemma VarIntFromStep(buf: seq<Byte>, pos: nat, k: nat, acc: nat, total: Result<VarIntRead>)
    requires k < 5 && VarIntFrom(buf, pos, k, acc) == total
    ensures pos + k >= |buf| ==> total == Err(IndexError)
    ensures pos + k < |buf| && (buf[pos + k] < 0x80 || k == 4) ==>
      total == Ok(VarIntRead(acc + Group(buf[pos + k], 7 * k), 7 * k, pos + k + 1))
    ensures pos + k < |buf| && !(buf[pos + k] < 0x80 || k == 4) ==>
      VarIntFrom(buf, pos, k + 1, acc + Group(buf[pos + k], 7 * k)) == total
  {
  }

  /** `read_int(unsigned)`: u30 / u32 when unsigned, s32 otherwise. */
  function VarInt(buf: seq<Byte>, pos: nat, unsigned: bool): (r: Result<Parsed<int>>)
    ensures unsigned && r.Ok? ==> r.value.value >= 0
  {
    var v :- VarIntFrom(buf, pos, 0, 0);
    if unsigned then Ok(Parsed(v.value, v.next))
    else Ok(Parsed(ExtendSign(v.value, 6 + v.shift), v.next))
  }

  lemma VarIntOfLoop(buf: seq<Byte>, pos: nat, unsigned: bool, v: VarIntRead)
    requires VarIntFrom(buf, pos, 0, 0) == Ok(v)
    ensures VarInt(buf, pos, unsigned)
      == Ok(Parsed(if unsigned then v.value else ExtendSign(v.value, 6 + v.shift), v.next))
  {
  }

  /** `read_int()` with its result typed as a natural number. */
  function U30(buf: seq<Byte>, pos: nat): Result<Parsed<nat>> {
    var v :- VarIntFrom(buf, pos, 0, 0);
    Ok(Parsed(v.value, v.next))
  }

  /**
   * The 32-bit two's complement reading of the low 32 bits of `u`, as the
   * s32 type of the AVM2 format defines it.
   */
  function Int32Of(u: int): int {
    ExtendSign(u % Pow2(32), 31)
  }

  /**
   * A corrected signed read. A run of one to four bytes is sign-extended at
   * the last group's top bit, as `read_int(unsigned=False)` does; a five-byte
   * run has its low 32 bits read as a 32-bit two's complement integer, as the
   * s32 type of the AVM2 format defines it. The source sign-extends a
   * five-byte run at bit 34 instead (see `VarInt` with `unsigned == false`).
   */
  function S32(buf: seq<Byte>, pos: nat): Result<Parsed<int>> {
    var v :- VarIntFrom(buf, pos, 0, 0);
    if v.shift == 28 then Ok(Parsed(Int32Of(v.value), v.next))
    else Ok(Parsed(ExtendSign(v.value, 6 + v.shift), v.next))
  }

  /** `read_s24()`: three bytes little-endian, sign-extended at bit 23. */
  function S24(buf: seq<Byte>, pos: nat): Result<Parsed<int>> {
    var raw := ReadBytes(buf, pos, 3);
    if |raw.value| < 3 then Err(StructError)
    else Ok(Parsed(ExtendSign(LittleEndian(raw.value), 23), raw.next))
  }

  /** An IEEE-754 double kept opaque: the NaN default of the doubles pool, or eight raw bytes. */
  datatype Double = NaN | Float64(bytes: seq<Byte>)

  /** `read_d64()`: `read(8)`, then `struct.unpack`, which needs exactly eight bytes. */
  function D64(buf: seq<Byte>, pos: nat): Result<Parsed<Double>> {
    var raw := ReadBytes(buf, pos, 8);
    if |raw.value| < 8 then Err(StructError) else Ok(Parsed(Float64(raw.value), raw.next))
  }

  /** The first index at or after `j` that holds `s`. */
  function FindFrom(buf: seq<Byte>, j: nat, s: Byte): (r: Option<nat>)
    ensures r.Some? ==> j <= r.value < |buf| && buf[r.value] == s
    ensures r.Some? ==> forall m :: j <= m < r.value ==> buf[m] != s
    ensures r.None? ==> forall m :: j <= m < |buf| ==> buf[m] != s
    decreases |buf| - j
  {
    if j >= |buf| then None
    else if buf[j] == s then Some(j)
    else FindFrom(buf, j + 1, s)
  }

  /** `read_until(s)`: the bytes before the next `s`; the cursor moves past the `s`. */
  function Until(buf: seq<Byte>, pos: nat, s: Byte): Result<Parsed<seq<Byte>>> {
    match FindFrom(buf, pos, s)
    case None => Err(IndexError)
    case Some(j) => Ok(Parsed(buf[pos..j], j + 1))
  }

  /** How many bytes `skip_rect` skips after the byte that holds the RECT's `Nbits` field. */
  function RectTail(first: Byte): nat {
    ((first / 8) * 4 - 3 + 8) / 8
  }

  // ---------------------------------------------------------------------------
  // The cursor
  // ---------------------------------------------------------------------------

  class MemoryViewReader {
    const buffer: seq<Byte>
    var position: nat

    constructor (buffer: seq<Byte>)
      ensures this.buffer == buffer && position == 0
    {
      this.buffer := buffer;
      position := 0;
    }

    /** `is_eof`: no byte is left, so `read_u8` raises `IndexError` and `read_all` and `read` return nothing. */
    function IsEof(): (eof: bool)
      reads this
      ensures eof <==> U8(buffer, position).Err?
      ensures eof <==> ReadRest(buffer, position).value == []
      ensures eof ==> forall size: nat :: ReadBytes(buffer, position, size).value == []
    {
      position >= |buffer|
    }

    method Read(size: nat) returns (value: seq<Byte>)
      modifies this
      ensures Parsed(value, position) == ReadBytes(buffer, old(position), size)
    {
      var end := if position + size <= |buffer| then position + size else |buffer|;
      value := if position <= end then buffer[position..end] else [];
      position := position + |value|;
    }

    method ReadAll() returns (value: seq<Byte>)
      modifies this
      ensures Parsed(value, position) == ReadRest(buffer, old(position))
      ensures old(position) <= |buffer| ==> position == |buffer|
    {
      value := if position <= |buffer| then buffer[position..] else [];
      position := position + |value|;
    }

    method Skip(size: nat) returns (p: nat)
      modifies this
      ensures position == old(position) + size && p == position
    {
      position := position + size;
      p := position;
    }

    method ReadU8() returns (res: Result<Byte>)
      modifies this
      ensures Agrees(res, position, U8(buffer, old(position)))
      ensures res.Ok? <==> old(position) < |buffer|
      ensures res.Ok? ==> res.value == buffer[old(position)] && position == old(position) + 1
      ensures res.Err? ==> position == old(position)
    {
      if position >= |buffer| {
        return Err(IndexError);
      }
      res := Ok(buffer[position]);
      position := position + 1;
    }

    method ReadU16() returns (res: Result<nat>)
      modifies this
      ensures Agrees(res, position, U16(buffer, old(position)))
      ensures res.Err? ==> position == old(position)
    {
      if position + 2 > |buffer| {
        return Err(StructError);
      }
      res := Ok(LittleEndian(buffer[position..position + 2]));
      position := position + 2;
    }

    method ReadU32() returns (res: Result<nat>)
      modifies this
      ensures Agrees(res, position, U32(buffer, old(position)))
      ensures res.Err? ==> position == old(position)
    {
      if position + 4 > |buffer| {
        return Err(StructError);
      }
      res := Ok(LittleEndian(buffer[position..position + 4]));
      position := position + 4;
    }

    /** `skip_rect()`: read the first byte of a RECT record and skip the rest of it. */
    method SkipRect() returns (res: Result<nat>)
      modifies this
      ensures old(position) < |buffer| ==>
        res == Ok(position) && position == old(position) + 1 + RectTail(buffer[old(position)])
      ensures old(position) >= |buffer| ==> res == Err(IndexError)
    {
      var nBits :- ReadU8();
      var n: int := nBits;
      var p := Skip(((n / 8) * 4 - 3 + 8) / 8);
      res := Ok(p);
    }

    method ReadUntil(sentinel: Byte) returns (res: Result<seq<Byte>>)
      modifies this
      ensures Agrees(res, position, Until(buffer, old(position), sentinel))
    {
      var length := 0;
      while true
        invariant length <= |buffer|
        invariant position == old(position)
        invariant FindFrom(buffer, position + length, sentinel) == FindFrom(buffer, position, sentinel)
        decreases |buffer| - length
      {
        if position + length >= |buffer| {
          return Err(IndexError);
        }
        if buffer[position + length] == sentinel {
          var value := buffer[position..position + length];
          position := position + length + 1;
          return Ok(value);
        }
        length := length + 1;
      }
    }

    /** `read_string()`: a zero-terminated byte run (UTF-8 decoding is not modelled). */
    method ReadString() returns (res: Result<seq<Byte>>)
      modifies this
      ensures Agrees(res, position, Until(buffer, old(position), 0))
    {
      res := ReadUntil(0);
    }

    method ReadInt(unsigned: bool) returns (res: Result<int>)
      modifies this
      ensures Agrees(res, position, VarInt(buffer, old(position), unsigned))
    {
      ghost var start := position;
      var groups := ReadGroups();
      if groups.Err? {
        return Err(groups.error);
      }
      VarIntOfLoop(buffer, start, unsigned, groups.value);
      if unsigned {
        return Ok(groups.value.value);
      }
      return Ok(ExtendSign(groups.value.value, 6 + groups.value.shift));
    }

    /** The loop of `read_int`: up to five bytes, seven bits each, while the continuation bit is set. */
    method ReadGroups() returns (res: Result<VarIntRead>)
      modifies this
      ensures res == VarIntFrom(buffer, old(position), 0, 0)
      ensures res.Ok? ==> position == res.value.next
    {
      ghost var start := position;
      ghost var total := VarIntFrom(buffer, start, 0, 0);
      ghost var k: nat := 0;
      var value: nat := 0;
      var i: nat := 0;
      while true
        invariant k < 5 && i == 7 * k && position == start + k
        invariant VarIntFrom(buffer, start, k, value) == total
        decreases 28 - i
      {
        VarIntFromStep(buffer, start, k, value, total);
        var byte := ReadU8();
        if byte.Err? {
          return Err(IndexError);
        }
        var b := byte.value;
        value := value + Group(b, i);
        if b < 0x80 || i == 28 {
          return Ok(VarIntRead(value, i, position));
        }
        i := i + 7;
        k := k + 1;
      }
    }

    /** `read_int()` with its result typed as a natural number. */
    method ReadU30() returns (res: Result<nat>)
      modifies this
      ensures Agrees(res, position, U30(buffer, old(position)))
    {
      var v :- ReadInt(true);
      res := Ok(v as nat);
    }

    /** The corrected signed read `S32`. */
    method ReadS32() returns (res: Result<int>)
      modifies this
      ensures Agrees(res, position, S32(buffer, old(position)))
    {
      var v :- ReadGroups();
      if v.shift == 28 {
        return Ok(Int32Of(v.value));
      }
      return Ok(ExtendSign(v.value, 6 + v.shift));
    }

    method ReadD64() returns (res: Result<Double>)
      modifies this
      ensures Agrees(res, position, D64(buffer, old(position)))
    {
      var raw := Read(8);
      if |raw| < 8 {
        return Err(StructError);
      }
      res := Ok(Float64(raw));
    }

    method ReadS24() returns (res: Result<int>)
      modifies this
      ensures Agrees(res, position, S24(buffer, old(position)))
    {
      var raw := Read(3);
      if |raw| < 3 {
        return Err(StructError);
      }
      res := Ok(ExtendSign(LittleEndian(raw), 23));
    }
  }
}
