/**
 * What the reads of avm2/io/__init__.py promise: the shape of a variable-length
 * integer, round trips of every encoding the reader decodes, the range of a
 * sign extension, and the size of a RECT record.
 */
module IoProps {
  import opened Wrappers
  import opened Io

  // ---------------------------------------------------------------------------
  // Variable-length integers (u30 / u32 / s32)
  // ---------------------------------------------------------------------------

  /** Every byte of `bytes` has its continuation bit set. */
  predicate AllContinue(bytes: seq<Byte>) {
    forall m :: 0 <= m < |bytes| ==> bytes[m] >= 0x80
  }

  /** The integer the 7-bit groups of `bytes` spell, least significant group first. */
  function Groups(bytes: seq<Byte>): nat {
    if bytes == [] then 0 else bytes[0] % 0x80 + 0x80 * Groups(bytes[1..])
  }

  lemma {:induction false} GroupsBound(bytes: seq<Byte>)
    ensures Groups(bytes) < Pow2(7 * |bytes|)
  {
    if bytes != [] {
      GroupsBound(bytes[1..]);
      Pow2Add(7, 7 * (|bytes| - 1));
      Pow2Values();
    }
  }

  lemma {:induction false} GroupsSnoc(bytes: seq<Byte>, b: Byte)
    ensures Groups(bytes + [b]) == Groups(bytes) + Group(b, 7 * |bytes|)
  {
    if bytes == [] {
      assert bytes + [b] == [b];
      assert Groups([b][1..]) == 0 by { assert [b][1..] == []; }
    } else {
      var n := |bytes|;
      assert (bytes + [b])[1..] == bytes[1..] + [b];
      GroupsSnoc(bytes[1..], b);
      Pow2Add(7, 7 * (n - 1));
      Pow2Values();
      Distribute(bytes[0] % 0x80, Groups(bytes[1..]), b % 0x80, Pow2(7 * (n - 1)));
    }
  }

  lemma Distribute(x: int, rest: int, g: int, p: int)
    ensures x + 0x80 * (rest + g * p) == (x + 0x80 * rest) + g * (0x80 * p)
  {
  }

  /**
   * `v` is what `read_int` read from a run of one to five bytes at `pos`: all
   * but the last have the continuation bit set, the last does not unless it is
   * the fifth, and the value is the groups of the run.
   */
  ghost predicate ValidRun(buf: seq<Byte>, pos: nat, v: VarIntRead) {
    pos < v.next <= pos + 5 && v.next <= |buf| && v.shift == 7 * (v.next - pos - 1)
    && AllContinue(buf[pos..v.next - 1])
    && (buf[v.next - 1] < 0x80 || v.next == pos + 5)
    && v.value == Groups(buf[pos..v.next])
  }

  /**
   * The loop from its `k`-th byte on, started with the groups of the first `k`
   * bytes, either runs off the buffer or reads the groups of a run of bytes
   * that ends at the first byte without the continuation bit, or at the fifth.
   */
  lemma {:induction false} VarIntFromShape(buf: seq<Byte>, pos: nat, k: nat, acc: nat, total: Result<VarIntRead>)
    requires k < 5 && pos + k <= |buf| && AllContinue(buf[pos..pos + k])
    requires acc == Groups(buf[pos..pos + k]) && total == VarIntFrom(buf, pos, k, acc)
    ensures RunShape(buf, pos, k, total)
    decreases 5 - k
  {
    VarIntFromStep(buf, pos, k, acc, total);
    if pos + k >= |buf| {
      RunOffEnd(buf, pos, k, total);
    } else if buf[pos + k] < 0x80 || k == 4 {
      RunEnds(buf, pos, k, total);
    } else {
      var acc' := acc + Group(buf[pos + k], 7 * k);
      RunContinues(buf, pos, k, acc');
      VarIntFromShape(buf, pos, k + 1, acc', total);
    }
  }

  /** What `VarIntFromShape` promises of the outcome `total` of the loop from its `k`-th byte. */
  ghost predicate RunShape(buf: seq<Byte>, pos: nat, k: nat, total: Result<VarIntRead>) {
    (total.Err? ==> total.error == IndexError && pos <= |buf| < pos + 5 && AllContinue(buf[pos..]))
    && (total.Ok? ==> ValidRun(buf, pos, total.value) && pos + k < total.value.next)
  }

  /** The loop runs off the buffer after `k` bytes with the continuation bit. */
  lemma RunOffEnd(buf: seq<Byte>, pos: nat, k: nat, total: Result<VarIntRead>)
    requires k < 5 && pos + k == |buf| && AllContinue(buf[pos..pos + k]) && total == Err(IndexError)
    ensures RunShape(buf, pos, k, total)
  {
    assert buf[pos..] == buf[pos..pos + k];
  }

  /** Appending the byte at `pos + k` to a run adds its group at shift `7 * k`. */
  lemma RunSnoc(buf: seq<Byte>, pos: nat, k: nat)
    requires pos + k < |buf|
    ensures Groups(buf[pos..pos + k + 1]) == Groups(buf[pos..pos + k]) + Group(buf[pos + k], 7 * k)
  {
    assert buf[pos..pos + k + 1] == buf[pos..pos + k] + [buf[pos + k]];
    GroupsSnoc(buf[pos..pos + k], buf[pos + k]);
  }

  /** A byte without the continuation bit, or the fifth byte, ends a valid run. */
  lemma RunEnds(buf: seq<Byte>, pos: nat, k: nat, total: Result<VarIntRead>)
    requires k < 5 && pos + k < |buf| && AllContinue(buf[pos..pos + k])
    requires buf[pos + k] < 0x80 || k == 4
    requires total == Ok(VarIntRead(Groups(buf[pos..pos + k]) + Group(buf[pos + k], 7 * k), 7 * k, pos + k + 1))
    ensures RunShape(buf, pos, k, total)
  {
    RunSnoc(buf, pos, k);
  }

  /** A byte with the continuation bit extends the run. */
  lemma RunContinues(buf: seq<Byte>, pos: nat, k: nat, acc': nat)
    requires pos + k < |buf| && AllContinue(buf[pos..pos + k]) && buf[pos + k] >= 0x80
    requires acc' == Groups(buf[pos..pos + k]) + Group(buf[pos + k], 7 * k)
    ensures AllContinue(buf[pos..pos + (k + 1)]) && acc' == Groups(buf[pos..pos + (k + 1)])
  {
    RunSnoc(buf, pos, k);
    var run := buf[pos..pos + (k + 1)];
    forall m | 0 <= m < |run| ensures run[m] >= 0x80 {
      if m < k { assert run[m] == buf[pos..pos + k][m]; }
    }
  }

  /**
   * `read_int` reads one to five bytes: all but the last have the continuation
   * bit set, the last does not unless it is the fifth, and the value is the
   * groups they spell, below 2^35. It fails only when the buffer ends first.
   */
  lemma VarIntShape(buf: seq<Byte>, pos: nat)
    requires pos <= |buf|
    ensures VarIntFrom(buf, pos, 0, 0).Err? ==>
      VarIntFrom(buf, pos, 0, 0).error == IndexError && |buf| < pos + 5 && AllContinue(buf[pos..])
    ensures VarIntFrom(buf, pos, 0, 0).Ok? ==>
      ValidRun(buf, pos, VarIntFrom(buf, pos, 0, 0).value) && VarIntFrom(buf, pos, 0, 0).value.value < Pow2(35)
  {
    assert Groups(buf[pos..pos]) == 0;
    VarIntFromShape(buf, pos, 0, 0, VarIntFrom(buf, pos, 0, 0));
    var r := VarIntFrom(buf, pos, 0, 0);
    if r.Ok? {
      var run := buf[pos..r.value.next];
      assert r.value.value == Groups(run);
      GroupsBound(run);
      Pow2Monotone(7 * |run|, 35);
      assert Groups(run) < Pow2(35);
    }
  }

  /** The unsigned variable-length encoding of `v`, least significant group first. */
  function EncodeVarUInt(v: nat): (r: seq<Byte>)
    ensures |r| >= 1
    decreases v
  {
    if v < 0x80 then [v] else [v % 0x80 + 0x80] + EncodeVarUInt(v / 0x80)
  }

  lemma {:induction false} EncodeVarUIntShape(v: nat, k: nat)
    requires k >= 1 && v < Pow2(7 * k)
    ensures |EncodeVarUInt(v)| <= k
    ensures AllContinue(EncodeVarUInt(v)[..|EncodeVarUInt(v)| - 1])
    ensures EncodeVarUInt(v)[|EncodeVarUInt(v)| - 1] < 0x80
    ensures Groups(EncodeVarUInt(v)) == v
    decreases v
  {
    if v < 0x80 {
      assert EncodeVarUInt(v) == [v];
      assert Groups([v][1..]) == 0 by { assert [v][1..] == []; }
    } else {
      GroupShift(v, k);
      EncodeVarUIntShape(v / 0x80, k - 1);
      ConsGroup(v, EncodeVarUInt(v / 0x80));
    }
  }

  /** A value of `k` groups that needs more than one leaves `k - 1` groups after the first. */
  lemma GroupShift(v: nat, k: nat)
    requires k >= 1 && v < Pow2(7 * k) && v >= 0x80
    ensures k >= 2 && v / 0x80 < Pow2(7 * (k - 1))
  {
    assert Pow2(7) == 0x80 by { Pow2Values(); }
    if k == 1 {
      assert false;
    }
    Pow2Add(7, 7 * (k - 1));
  }

  /** Prefixing a run with the low group of `v`, continuation bit set, spells `v`. */
  lemma ConsGroup(v: nat, t: seq<Byte>)
    requires v >= 0x80 && t != [] && AllContinue(t[..|t| - 1]) && t[|t| - 1] < 0x80
    requires Groups(t) == v / 0x80 && EncodeVarUInt(v) == [v % 0x80 + 0x80] + t
    ensures AllContinue(EncodeVarUInt(v)[..|EncodeVarUInt(v)| - 1])
    ensures EncodeVarUInt(v)[|EncodeVarUInt(v)| - 1] < 0x80
    ensures Groups(EncodeVarUInt(v)) == v
  {
    var e := EncodeVarUInt(v);
    assert e[1..] == t;
    assert e[..|e| - 1] == [v % 0x80 + 0x80] + t[..|t| - 1];
  }

  /** Round trip: `read_int()` decodes the encoding of every value below 2^35. */
  lemma VarUIntRoundTrip(buf: seq<Byte>, pos: nat, v: nat)
    requires v < Pow2(35) && At(buf, pos, EncodeVarUInt(v))
    ensures U30(buf, pos) == Ok(Parsed(v, pos + |EncodeVarUInt(v)|))
  {
    EncodingIsRun(v);
    RunRoundTrip(buf, pos, EncodeVarUInt(v));
  }

  /**
   * A complete run: one to five bytes, all but the last with the continuation
   * bit set and the last without it.
   */
  predicate IsRun(e: seq<Byte>) {
    1 <= |e| <= 5 && AllContinue(e[..|e| - 1]) && e[|e| - 1] < 0x80
  }

  /** The encoding of a value below 2^35 is a complete run that spells the value. */
  lemma EncodingIsRun(v: nat)
    requires v < Pow2(35)
    ensures IsRun(EncodeVarUInt(v)) && Groups(EncodeVarUInt(v)) == v
  {
    EncodeVarUIntShape(v, 5);
  }

  /** `read_int()` over a complete run of one to five bytes reads the groups of the run. */
  lemma RunRoundTrip(buf: seq<Byte>, pos: nat, e: seq<Byte>)
    requires IsRun(e) && At(buf, pos, e)
    ensures U30(buf, pos) == Ok(Parsed(Groups(e), pos + |e|))
  {
    RunRead(buf, pos, e);
    var r := VarIntFrom(buf, pos, 0, 0).value;
    RunLength(buf, pos, r, e);
    assert r.value == Groups(buf[pos..r.next]) == Groups(e);
    U30OfRead(buf, pos, r);
  }

  /** Over a complete run the loop does not run off the buffer, and what it reads is a valid run. */
  lemma RunRead(buf: seq<Byte>, pos: nat, e: seq<Byte>)
    requires IsRun(e) && At(buf, pos, e)
    ensures VarIntFrom(buf, pos, 0, 0).Ok? && ValidRun(buf, pos, VarIntFrom(buf, pos, 0, 0).value)
  {
    VarIntShape(buf, pos);
    RunPrefix(buf, pos, e);
  }

  lemma U30OfRead(buf: seq<Byte>, pos: nat, r: VarIntRead)
    requires VarIntFrom(buf, pos, 0, 0) == Ok(r)
    ensures U30(buf, pos) == Ok(Parsed(r.value, r.next))
  {
  }

  /** A buffer holding a complete run `e` has more than the bytes with the continuation bit. */
  lemma RunPrefix(buf: seq<Byte>, pos: nat, e: seq<Byte>)
    requires 1 <= |e| && At(buf, pos, e) && e[|e| - 1] < 0x80
    ensures !AllContinue(buf[pos..])
  {
    assert buf[pos..][|e| - 1] == e[|e| - 1];
  }

  /** A valid run read over a complete run `e` stops exactly at the end of `e`. */
  lemma RunLength(buf: seq<Byte>, pos: nat, r: VarIntRead, e: seq<Byte>)
    requires ValidRun(buf, pos, r) && At(buf, pos, e)
    requires 1 <= |e| <= 5 && AllContinue(e[..|e| - 1]) && e[|e| - 1] < 0x80
    ensures r.next == pos + |e| && buf[pos..r.next] == e
  {
    var n := |e|;
    forall j | pos <= j < pos + n - 1 ensures buf[j] >= 0x80 {
      assert buf[j] == e[..n - 1][j - pos];
    }
    assert buf[pos + n - 1] == e[n - 1];
    forall j | pos <= j < r.next - 1 ensures buf[j] >= 0x80 {
      assert buf[j] == buf[pos..r.next - 1][j - pos];
    }
  }

  // ---------------------------------------------------------------------------
  // Sign extension and fixed-width little-endian integers
  // ---------------------------------------------------------------------------

  /** `extend_sign(v, 1 << k)` is a (k+1)-bit two's complement value. */
  lemma ExtendSignRange(v: nat, k: nat)
    ensures -(Pow2(k) as int) <= ExtendSign(v, k) < Pow2(k)
    ensures v < Pow2(k) ==> ExtendSign(v, k) == v
  {
    if v < Pow2(k) {
      DivModUnique(v, Pow2(k), 0, v);
    }
  }

  /** `extend_sign` undoes the (k+1)-bit two's complement of every value it can produce. */
  lemma ExtendSignTwosComplement(x: int, k: nat)
    requires -(Pow2(k) as int) <= x < Pow2(k)
    ensures ExtendSign(x % Pow2(k + 1), k) == x
  {
    var p := Pow2(k);
    assert Pow2(k + 1) == 2 * p;
    if x >= 0 {
      DivModUnique(x, 2 * p, 0, x);
      DivModUnique(x, p, 0, x);
    } else {
      DivModUnique(x, 2 * p, -1, x + 2 * p);
      DivModUnique(x + 2 * p, p, 1, x + p);
    }
  }

  /** The `n`-byte little-endian encoding of `v` modulo 2^(8n). */
  function LittleEndianBytes(v: nat, n: nat): (r: seq<Byte>)
    ensures |r| == n
  {
    if n == 0 then [] else [v % 0x100] + LittleEndianBytes(v / 0x100, n - 1)
  }

  lemma {:induction false} LittleEndianBound(bytes: seq<Byte>)
    ensures LittleEndian(bytes) < Pow2(8 * |bytes|)
  {
    if bytes != [] {
      LittleEndianBound(bytes[1..]);
      Pow2Add(8, 8 * (|bytes| - 1));
      Pow2Values();
    }
  }

  /** Round trip: the little-endian value of the encoding of `v` is `v`. */
  lemma {:induction false} LittleEndianRoundTrip(v: nat, n: nat)
    requires v < Pow2(8 * n)
    ensures LittleEndian(LittleEndianBytes(v, n)) == v
  {
    if n > 0 {
      var p := Pow2(8 * (n - 1));
      assert v < 0x100 * p by {
        Pow2Add(8, 8 * (n - 1));
        assert Pow2(8) == 0x100 by { Pow2Values(); }
      }
      var r := LittleEndianBytes(v, n);
      assert r[1..] == LittleEndianBytes(v / 0x100, n - 1);
      LittleEndianRoundTrip(v / 0x100, n - 1);
    }
  }

  /** `read_u16` / `read_u32` decode the little-endian encoding of every value that fits. */
  lemma FixedLERoundTrip(buf: seq<Byte>, pos: nat, n: nat, v: nat)
    requires v < Pow2(8 * n) && At(buf, pos, LittleEndianBytes(v, n))
    ensures FixedLE(buf, pos, n) == Ok(Parsed(v, pos + n))
  {
    LittleEndianRoundTrip(v, n);
  }

  /** `read_s24` returns a 24-bit two's complement value. */
  lemma S24Range(buf: seq<Byte>, pos: nat)
    ensures S24(buf, pos).Ok? ==>
      -0x80_0000 <= S24(buf, pos).value.value < 0x80_0000 && S24(buf, pos).value.next == pos + 3
  {
    var raw := ReadBytes(buf, pos, 3);
    if |raw.value| == 3 {
      ExtendSignRange(LittleEndian(raw.value), 23);
      Pow2Values();
    }
  }

  /** Round trip: `read_s24` decodes the three-byte two's complement of every s24 value. */
  lemma S24RoundTrip(buf: seq<Byte>, pos: nat, x: int)
    requires -0x80_0000 <= x < 0x80_0000 && At(buf, pos, LittleEndianBytes(x % 0x100_0000, 3))
    ensures S24(buf, pos) == Ok(Parsed(x, pos + 3))
  {
    Pow2Values();
    LittleEndianRoundTrip(x % 0x100_0000, 3);
    ExtendSignTwosComplement(x, 23);
  }

  // ---------------------------------------------------------------------------
  // Signed 32-bit reads
  // ---------------------------------------------------------------------------

  /** The `n`-byte run spelling `v`: `n - 1` bytes with the continuation bit, then one without. */
  function EncodeRun(v: nat, n: nat): (r: seq<Byte>)
    requires n >= 1
    ensures |r| == n
    decreases n
  {
    if n == 1 then [v % 0x80] else [v % 0x80 + 0x80] + EncodeRun(v / 0x80, n - 1)
  }

  lemma {:induction false} EncodeRunShape(v: nat, n: nat)
    requires 1 <= n <= 5 && v < Pow2(7 * n)
    ensures IsRun(EncodeRun(v, n)) && Groups(EncodeRun(v, n)) == v
    decreases n
  {
    if n == 1 {
      Pow2Seven();
      assert Groups([v % 0x80][1..]) == 0 by { assert [v % 0x80][1..] == []; }
    } else {
      var b := v % 0x80 + 0x80;
      var t := EncodeRun(v / 0x80, n - 1);
      EncodeRunCons(v, n);
      assert v / 0x80 < Pow2(7 * (n - 1)) by {
        Pow2Seven();
        Pow2Add(7, 7 * (n - 1));
      }
      EncodeRunShape(v / 0x80, n - 1);
      ConsRun(b, t);
      DivModUnique(b, 0x80, 1, v % 0x80);
    }
  }

  lemma EncodeRunCons(v: nat, n: nat)
    requires n >= 2
    ensures EncodeRun(v, n) == [v % 0x80 + 0x80] + EncodeRun(v / 0x80, n - 1)
  {
  }

  /** A byte with the continuation bit in front of a run of fewer than five bytes is a run again. */
  lemma ConsRun(b: Byte, t: seq<Byte>)
    requires b >= 0x80 && IsRun(t) && |t| < 5
    ensures IsRun([b] + t) && Groups([b] + t) == b % 0x80 + 0x80 * Groups(t)
  {
    var e := [b] + t;
    assert e[1..] == t;
    forall m | 0 <= m < |e| - 1 ensures e[m] >= 0x80 {
      if m > 0 { assert e[m] == t[m - 1]; }
    }
  }

  lemma Pow2Seven()
    ensures Pow2(6) == 0x40 && Pow2(7) == 0x80
  {
    assert Pow2(2) == 4 by { assert Pow2(1) == 2; }
    assert Pow2(4) == 0x10 by { assert Pow2(3) == 8; }
    assert Pow2(6) == 0x40 by { assert Pow2(5) == 0x20; }
  }

  /**
   * The top bit of an `n`-byte signed value: bit `7n - 1` of the groups for
   * one to four bytes, bit 31 for five.
   */
  function S32SignBit(n: nat): nat {
    if n >= 5 then 31 else if n == 0 then 0 else 7 * n - 1
  }

  /** `x` has an `n`-byte encoding: one to five bytes, and `x` fits in their signed width. */
  predicate S32Fits(x: int, n: nat) {
    1 <= n <= 5 && -(Pow2(S32SignBit(n)) as int) <= x < Pow2(S32SignBit(n))
  }

  /** The `n`-byte encoding of the signed value `x`: its two's complement over `S32SignBit(n) + 1` bits. */
  function EncodeS32(x: int, n: nat): (r: seq<Byte>)
    requires 1 <= n <= 5
    ensures |r| == n
  {
    EncodeRun(x % Pow2(S32SignBit(n) + 1), n)
  }

  /**
   * The signed `read_int` as written returns 4294967295 for FF FF FF FF 0F,
   * the five-byte encoding of -1: the value lies outside the 32-bit range.
   * The corrected `S32` reads -1.
   */
  lemma SignedReadOutOfRange()
    ensures EncodeS32(-1, 5) == [0xFF, 0xFF, 0xFF, 0xFF, 0x0F]
    ensures VarInt([0xFF, 0xFF, 0xFF, 0xFF, 0x0F], 0, false) == Ok(Parsed(0xFFFF_FFFF, 5))
    ensures 0xFFFF_FFFF >= Pow2(31)
    ensures S32([0xFF, 0xFF, 0xFF, 0xFF, 0x0F], 0) == Ok(Parsed(-1, 5))
  {
    MinusOneEncoding();
    Pow2Values();
    var buf: seq<Byte> := [0xFF, 0xFF, 0xFF, 0xFF, 0x0F];
    assert VarIntFrom(buf, 0, 4, 0x0FFF_FFFF) == Ok(VarIntRead(0xFFFF_FFFF, 28, 5));
    assert VarIntFrom(buf, 0, 3, 0x1F_FFFF) == Ok(VarIntRead(0xFFFF_FFFF, 28, 5));
    assert VarIntFrom(buf, 0, 2, 0x3FFF) == Ok(VarIntRead(0xFFFF_FFFF, 28, 5));
    assert VarIntFrom(buf, 0, 1, 0x7F) == Ok(VarIntRead(0xFFFF_FFFF, 28, 5));
    assert VarIntFrom(buf, 0, 0, 0) == Ok(VarIntRead(0xFFFF_FFFF, 28, 5));
    ExtendSignRange(0xFFFF_FFFF, 34);
    assert ExtendSign(0xFFFF_FFFF, 31) == -1 by {
      DivModUnique(0xFFFF_FFFF, Pow2(31), 1, 0x7FFF_FFFF);
    }
    assert 0xFFFF_FFFF % Pow2(32) == 0xFFFF_FFFF;
  }

  lemma MinusOneEncoding()
    ensures EncodeS32(-1, 5) == [0xFF, 0xFF, 0xFF, 0xFF, 0x0F]
  {
    assert EncodeRun(0xF, 1) == [0x0F];
    EncodeRunCons(0x7FF, 2);
    assert EncodeRun(0x7FF, 2) == [0xFF, 0x0F];
    EncodeRunCons(0x3_FFFF, 3);
    assert EncodeRun(0x3_FFFF, 3) == [0xFF, 0xFF, 0x0F];
    EncodeRunCons(0x1FF_FFFF, 4);
    assert EncodeRun(0x1FF_FFFF, 4) == [0xFF, 0xFF, 0xFF, 0x0F];
    EncodeRunCons(0xFFFF_FFFF, 5);
    assert Pow2(S32SignBit(5) + 1) == 0x1_0000_0000 by { Pow2Values(); }
  }

  /** The corrected signed read returns a 32-bit two's complement value. */
  lemma S32Range(buf: seq<Byte>, pos: nat)
    ensures S32(buf, pos).Ok? ==> -0x8000_0000 <= S32(buf, pos).value.value < 0x8000_0000
  {
    Pow2Values();
    var r := VarIntFrom(buf, pos, 0, 0);
    if r.Ok? {
      var v := r.value;
      if v.shift == 28 {
        ExtendSignRange(v.value % Pow2(32), 31);
      } else {
        VarIntShape(buf, pos);
        ExtendSignRange(v.value, 6 + v.shift);
        Pow2Monotone(6 + v.shift, 31);
      }
    }
  }

  /** Round trip: the corrected read decodes the `n`-byte encoding of every value that fits in `n` bytes. */
  lemma S32RoundTrip(buf: seq<Byte>, pos: nat, x: int, n: nat)
    requires S32Fits(x, n) && At(buf, pos, EncodeS32(x, n))
    ensures S32(buf, pos) == Ok(Parsed(x, pos + n))
  {
    var e := EncodeS32(x, n);
    EncodeS32Run(x, n);
    RunRead(buf, pos, e);
    var r := VarIntFrom(buf, pos, 0, 0).value;
    RunLength(buf, pos, r, e);
    S32OfRead(buf, pos, r);
    S32OfGroups(x, n);
  }

  lemma S32OfRead(buf: seq<Byte>, pos: nat, r: VarIntRead)
    requires VarIntFrom(buf, pos, 0, 0) == Ok(r)
    ensures S32(buf, pos)
      == Ok(Parsed(if r.shift == 28 then Int32Of(r.value) else ExtendSign(r.value, 6 + r.shift), r.next))
  {
  }

  /** The corrected read of an `n`-byte run spelling the two's complement of `x` is `x`. */
  lemma S32OfGroups(x: int, n: nat)
    requires S32Fits(x, n)
    ensures var u := x % Pow2(S32SignBit(n) + 1);
      (if 7 * (n - 1) == 28 then Int32Of(u) else ExtendSign(u, 6 + 7 * (n - 1))) == x
  {
    var u := x % Pow2(S32SignBit(n) + 1);
    ExtendSignTwosComplement(x, S32SignBit(n));
    if n == 5 {
      DivModUnique(u, Pow2(32), 0, u);
    }
  }

  /** The `n`-byte encoding of a value that fits is a complete run spelling its two's complement. */
  lemma EncodeS32Run(x: int, n: nat)
    requires S32Fits(x, n)
    ensures IsRun(EncodeS32(x, n)) && Groups(EncodeS32(x, n)) == x % Pow2(S32SignBit(n) + 1)
  {
    Pow2Monotone(S32SignBit(n) + 1, 7 * n);
    EncodeRunShape(x % Pow2(S32SignBit(n) + 1), n);
  }

  /**
   * The corrected read differs from the signed read as written only on
   * five-byte runs, and there exactly where the latter leaves the 32-bit range.
   */
  lemma S32AgreesWithSignedRead(buf: seq<Byte>, pos: nat)
    ensures S32(buf, pos) != VarInt(buf, pos, false) ==>
      VarIntFrom(buf, pos, 0, 0).Ok? && VarIntFrom(buf, pos, 0, 0).value.next == pos + 5
    ensures VarInt(buf, pos, false).Ok? ==>
      (S32(buf, pos) == VarInt(buf, pos, false) <==>
        -0x8000_0000 <= VarInt(buf, pos, false).value.value < 0x8000_0000)
  {
    Pow2Values();
    var r := VarIntFrom(buf, pos, 0, 0);
    if r.Ok? {
      var v := r.value;
      VarIntShape(buf, pos);
      S32Range(buf, pos);
      if v.shift < 28 {
        ExtendSignRange(v.value, 6 + v.shift);
        Pow2Monotone(6 + v.shift, 31);
      } else {
        FiveByteSignedRead(v.value);
      }
    }
  }

  /**
   * Sign extension at bit 34 agrees with the 32-bit two's complement reading
   * exactly when its result lies in the 32-bit range.
   */
  lemma FiveByteSignedRead(u: nat)
    ensures Int32Of(u) == ExtendSign(u, 34) <==> -0x8000_0000 <= ExtendSign(u, 34) < 0x8000_0000
  {
    Pow2Values();
    ExtendSignRange(u % Pow2(32), 31);
    var e := ExtendSign(u, 34);
    if -0x8000_0000 <= e < 0x8000_0000 {
      var c := if (u / Pow2(34)) % 2 == 1 then 1 else 0;
      assert e == (u / Pow2(32) - 4 * (u / Pow2(34) + c)) * Pow2(32) + u % Pow2(32);
      DivModUnique(e, Pow2(32), u / Pow2(32) - 4 * (u / Pow2(34) + c), u % Pow2(32));
      ExtendSignTwosComplement(e, 31);
    }
  }

  /**
   * On a run of one to four bytes the signed read as written is the unsigned
   * value, less 2^(7n) when bit 6 of the last byte is set: the `n`-byte two's
   * complement reading.
   */
  lemma SignedReadShortRun(buf: seq<Byte>, pos: nat)
    requires VarIntFrom(buf, pos, 0, 0).Ok? && VarIntFrom(buf, pos, 0, 0).value.next < pos + 5
    ensures var v := VarIntFrom(buf, pos, 0, 0).value;
      pos < v.next <= |buf| && VarInt(buf, pos, true).Ok? && VarInt(buf, pos, false).Ok?
      && VarInt(buf, pos, false).value.value == VarInt(buf, pos, true).value.value
        - (if buf[v.next - 1] % 0x80 >= 0x40 then Pow2(7 * (v.next - pos)) else 0)
  {
    var v := VarIntFrom(buf, pos, 0, 0).value;
    RunOfRead(buf, pos, v);
    ShortRunSign(buf, pos, v);
    VarIntOfLoop(buf, pos, true, v);
    VarIntOfLoop(buf, pos, false, v);
  }

  /** What the loop reads is a valid run. */
  lemma RunOfRead(buf: seq<Byte>, pos: nat, v: VarIntRead)
    requires VarIntFrom(buf, pos, 0, 0) == Ok(v)
    ensures ValidRun(buf, pos, v)
  {
    VarIntShape(buf, pos);
  }

  /** The sign extension of a run of one to four bytes, in terms of bit 6 of its last byte. */
  lemma ShortRunSign(buf: seq<Byte>, pos: nat, v: VarIntRead)
    requires ValidRun(buf, pos, v) && v.next < pos + 5
    ensures ExtendSign(v.value, 6 + v.shift)
      == v.value - (if buf[v.next - 1] % 0x80 >= 0x40 then Pow2(7 * (v.next - pos)) else 0)
  {
    var n := v.next - pos;
    var run := buf[pos..v.next];
    assert run[n - 1] == buf[v.next - 1];
    GroupWeights(n);
    LastGroupSign(run, Pow2(7 * (n - 1)));
    SignOfGroups(v.value, 6 + v.shift, Pow2(7 * (n - 1)));
  }

  /** The weights of the last group of an `n`-byte run: its bit 6 and the bit past it. */
  lemma GroupWeights(n: nat)
    requires n >= 1
    ensures Pow2(6 + 7 * (n - 1)) == 0x40 * Pow2(7 * (n - 1))
    ensures Pow2(7 * n) == 0x80 * Pow2(7 * (n - 1))
  {
    Pow2Seven();
    var q := Pow2(7 * (n - 1));
    assert Pow2(6 + 7 * (n - 1)) == 0x40 * q by { Pow2Add(6, 7 * (n - 1)); }
    assert Pow2(7 * n) == 0x80 * q by {
      assert 7 * n == 7 + 7 * (n - 1);
      Pow2Add(7, 7 * (n - 1));
    }
  }

  /** Sign extension at bit `k` of a value below 2^(k+1) takes 2^(k+1) off exactly when bit `k` is set. */
  lemma SignOfGroups(value: nat, k: nat, p: nat)
    requires Pow2(k) == 0x40 * p && value < 0x80 * p
    ensures ExtendSign(value, k) == value - (if value >= 0x40 * p then 0x80 * p else 0)
  {
    if value >= Pow2(k) {
      DivModUnique(value, Pow2(k), 1, value - Pow2(k));
    } else {
      ExtendSignRange(value, k);
    }
  }

  /** A run's value reaches 0x40 times its last group's weight exactly when bit 6 of its last byte is set. */
  lemma LastGroupSign(run: seq<Byte>, p: nat)
    requires run != [] && p == Pow2(7 * (|run| - 1))
    ensures Groups(run) < 0x80 * p
    ensures Groups(run) >= 0x40 * p <==> run[|run| - 1] % 0x80 >= 0x40
  {
    var init := run[..|run| - 1];
    assert run == init + [run[|run| - 1]];
    GroupsSnoc(init, run[|run| - 1]);
    GroupsBound(init);
    LastGroupBound(Groups(init), run[|run| - 1] % 0x80, p);
  }

  lemma LastGroupBound(g: nat, c: nat, p: nat)
    requires g < p && c < 0x80
    ensures g + c * p < 0x80 * p
    ensures g + c * p >= 0x40 * p <==> c >= 0x40
  {
    MulNonneg(0x7F - c, p);
    if c >= 0x40 {
      MulNonneg(c - 0x40, p);
    } else {
      MulNonneg(0x3F - c, p);
    }
  }

  /** A non-negative sign extension of a (k+1)-bit value leaves it unchanged. */
  lemma ExtendSignNonNegative(v: nat, k: nat)
    requires v < Pow2(k + 1) && ExtendSign(v, k) >= 0
    ensures ExtendSign(v, k) == v
  {
    var p := Pow2(k);
    if v < p {
      DivModUnique(v, p, 0, v);
    } else {
      DivModUnique(v, p, 1, v - p);
      assert false;
    }
  }

  // ---------------------------------------------------------------------------
  // Sentinel-terminated runs and RECT records
  // ---------------------------------------------------------------------------

  /** Round trip: `read_until(s)` returns a run without `s` that is followed by `s`. */
  lemma UntilRoundTrip(buf: seq<Byte>, pos: nat, bytes: seq<Byte>, s: Byte)
    requires s !in bytes && At(buf, pos, bytes + [s])
    ensures Until(buf, pos, s) == Ok(Parsed(bytes, pos + |bytes| + 1))
  {
    var j := pos + |bytes|;
    assert buf[j] == (bytes + [s])[|bytes|];
    forall m | pos <= m < j
      ensures buf[m] != s
    {
      assert buf[m] == (bytes + [s])[m - pos] == bytes[m - pos];
    }
    match FindFrom(buf, pos, s)
    case None =>
    case Some(i) =>
      assert i == j;
      assert buf[pos..j] == (bytes + [s])[..|bytes|] == bytes;
  }

  /**
   * A RECT record holds a 5-bit `Nbits` field and four `Nbits`-bit fields, so
   * it fills ceil((5 + 4 * Nbits) / 8) bytes; `skip_rect` reads the first and
   * skips exactly the rest.
   */
  lemma RectTailIsRectSize(first: Byte)
    ensures 1 + RectTail(first) == (5 + 4 * (first / 8) + 7) / 8
  {
  }
}
