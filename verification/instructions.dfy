/**
 * Decoding of AVM2 instructions (avm2/abc/instructions.py): the opcode byte
 * selects a registered instruction class, whose operand fields are read in
 * declaration order by the reader their type names (`u8`, `u30`, `uint`,
 * `s24`). `LookupSwitch` has its own constructor.
 */
module Instructions {
  import opened Wrappers
  import opened Io
  import opened IoProps
  import opened AbcDecode
  import opened AbcReader
  import opened AbcProps

  /** The operand types of `Instruction.readers`. */
  datatype OperandType = U8Operand | U30Operand | UIntOperand | S24Operand

  /**
   * A decoded instruction: the opcode and its operand fields in declaration
   * order, or a `LookupSwitch` with its default and case offsets.
   */
  datatype Instruction =
    | Instruction(opcode: Byte, operands: seq<int>)
    | LookupSwitch(defaultOffset: int, caseOffsets: seq<int>)

  const LOOKUP_SWITCH: Byte := 27

  /** Opcodes of the registered classes that declare no operand field. */
  predicate NoOperands(op: Byte) {
    2 <= op <= 3 || op == 7 || op == 9 || 28 <= op <= 33 || op == 35 || 38 <= op <= 43 ||
    op == 48 || 71 <= op <= 72 || op == 87 || op == 100 || 112 <= op <= 120 || op == 130 ||
    op == 133 || op == 135 || 144 <= op <= 145 || op == 147 || 149 <= op <= 151 ||
    160 <= op <= 177 || 179 <= op <= 180 || 192 <= op <= 193 || 196 <= op <= 199 || 208 <= op <= 215
  }

  /** Opcodes whose class declares one `u30` field (`index`, `arg_count`, `value`, ...). */
  predicate OneU30(op: Byte) {
    4 <= op <= 6 || op == 8 || op == 37 || 44 <= op <= 47 || op == 49 || 64 <= op <= 66 ||
    op == 73 || 85 <= op <= 86 || 88 <= op <= 90 || 93 <= op <= 94 || 96 <= op <= 99 ||
    op == 102 || op == 104 || op == 106 || 108 <= op <= 111 || op == 128 || op == 134 ||
    op == 146 || op == 148 || op == 178 || 194 <= op <= 195 || 240 <= op <= 241
  }

  /** Opcodes whose class declares `index: u30` and `arg_count: u30`. */
  predicate TwoU30(op: Byte) {
    67 <= op <= 70 || op == 74 || op == 76 || 78 <= op <= 79
  }

  /** The conditional and unconditional jumps: one `offset: s24`. */
  predicate OneS24(op: Byte) {
    12 <= op <= 26
  }

  /**
   * `fields(cls)` of the class registered for `opcode`, as operand types;
   * `None` for an opcode no class is registered for and for `LookupSwitch`,
   * which reads its fields itself.
   */
  function Layout(opcode: Byte): Option<seq<OperandType>> {
    if NoOperands(opcode) then Some([])
    else if OneU30(opcode) then Some([U30Operand])
    else if TwoU30(opcode) then Some([U30Operand, U30Operand])
    else if OneS24(opcode) then Some([S24Operand])
    else if opcode == 36 || opcode == 101 then Some([U8Operand])  // PushByte, GetScopeObject
    else if opcode == 50 then Some([UIntOperand, UIntOperand])    // HasNext2
    else if opcode == 239 then Some([U8Operand, U30Operand, U8Operand, U30Operand])  // Debug
    else None
  }

  /** `opcode in opcode_to_instruction`. */
  predicate Registered(opcode: Byte) {
    opcode == LOOKUP_SWITCH || Layout(opcode).Some?
  }

  /** One operand, read by `readers[field.type]`. */
  function OperandAt(buf: seq<Byte>, pos: nat, t: OperandType): (r: Result<Parsed<int>>)
    ensures r.Ok? ==> r.value.next > pos
  {
    match t
    case U8Operand =>
      var b :- U8(buf, pos);
      Ok(Parsed(b.value as int, b.next))
    case U30Operand =>
      U30Bound(buf, pos);
      var v :- U30(buf, pos);
      Ok(Parsed(v.value as int, v.next))
    case UIntOperand =>
      var v :- U32(buf, pos);
      Ok(Parsed(v.value as int, v.next))
    case S24Operand => S24(buf, pos)
  }

  /** The loop of `Instruction.__init__`: the fields one after another. */
  function Operands(buf: seq<Byte>, pos: nat, types: seq<OperandType>): (r: Result<Parsed<seq<int>>>)
    ensures r.Ok? ==> |r.value.value| == |types| && r.value.next >= pos
    decreases |types|
  {
    if types == [] then Ok(Parsed([], pos))
    else
      var init :- Operands(buf, pos, types[..|types| - 1]);
      var last :- OperandAt(buf, init.next, types[|types| - 1]);
      Ok(Parsed(init.value + [last.value], last.next))
  }

  /**
   * `read_instruction(reader)`: the opcode byte, a `KeyError` for an opcode
   * without a class, then the class's constructor.
   */
  function InstructionAt(buf: seq<Byte>, pos: nat): Result<Parsed<Instruction>> {
    var op :- U8(buf, pos);
    if op.value == LOOKUP_SWITCH then
      var default :- S24(buf, op.next);
      var count :- U30(buf, default.next);
      var cases :- ArrayN(buf, count.next, count.value + 1, S24);
      Ok(Parsed(LookupSwitch(default.value, cases.value), cases.next))
    else
      match Layout(op.value)
      case None => Err(KeyError)
      case Some(types) =>
        var fields :- Operands(buf, op.next, types);
        Ok(Parsed(Instruction(op.value, fields.value), fields.next))
  }

  /** A decoded instruction has as many operands as its class has fields. */
  predicate Decoded(ins: Instruction) {
    match ins
    case Instruction(opcode, operands) => Layout(opcode).Some? && |operands| == |Layout(opcode).value|
    case LookupSwitch(_, cases) => |cases| >= 1
  }

  // ---------------------------------------------------------------------------
  // Reader methods
  // ---------------------------------------------------------------------------

  lemma {:induction false} OperandsFails(buf: seq<Byte>, pos: nat, types: seq<OperandType>, i: nat)
    requires i <= |types| && Operands(buf, pos, types[..i]).Err?
    ensures Operands(buf, pos, types) == Operands(buf, pos, types[..i])
    decreases |types| - i
  {
    if i < |types| {
      assert types[..i + 1][..i] == types[..i];
      OperandsFails(buf, pos, types, i + 1);
    } else {
      assert types[..i] == types;
    }
  }

  lemma OperandsStep(buf: seq<Byte>, pos: nat, types: seq<OperandType>, i: nat, init: Parsed<seq<int>>)
    requires i < |types| && Operands(buf, pos, types[..i]) == Ok(init)
    ensures Operands(buf, pos, types[..i + 1]) ==
      match OperandAt(buf, init.next, types[i])
      case Err(e) => Err(e)
      case Ok(last) => Ok(Parsed(init.value + [last.value], last.next))
  {
    assert types[..i + 1][..i] == types[..i];
  }

  /** `readers[t](reader)`. */
  method ReadOperand(r: MemoryViewReader, t: OperandType) returns (res: Result<int>)
    modifies r
    ensures Agrees(res, r.position, OperandAt(r.buffer, old(r.position), t))
  {
    match t
    case U8Operand =>
      var b := r.ReadU8();
      if b.Err? { return Err(b.error); }
      return Ok(b.value as int);
    case U30Operand =>
      var v := r.ReadU30();
      if v.Err? { return Err(v.error); }
      return Ok(v.value as int);
    case UIntOperand =>
      var v := r.ReadU32();
      if v.Err? { return Err(v.error); }
      return Ok(v.value as int);
    case S24Operand =>
      res := r.ReadS24();
  }

  /** The loop of `Instruction.__init__` over `fields(self)`. */
  method ReadOperands(r: MemoryViewReader, types: seq<OperandType>) returns (res: Result<seq<int>>)
    modifies r
    ensures Agrees(res, r.position, Operands(r.buffer, old(r.position), types))
  {
    ghost var start := r.position;
    var values: seq<int> := [];
    var i := 0;
    assert types[..0] == [];
    while i < |types|
      invariant i <= |types|
      invariant Operands(r.buffer, start, types[..i]) == Ok(Parsed(values, r.position))
    {
      OperandsStep(r.buffer, start, types, i, Parsed(values, r.position));
      var v := ReadOperand(r, types[i]);
      if v.Err? {
        OperandsFails(r.buffer, start, types, i + 1);
        return Err(v.error);
      }
      values := values + [v.value];
      i := i + 1;
    }
    assert types[..i] == types;
    return Ok(values);
  }

  /** `read_array(reader, MemoryViewReader.read_s24, n)`. */
  method ReadS24Array(r: MemoryViewReader, n: nat) returns (res: Result<seq<int>>)
    modifies r
    ensures Agrees(res, r.position, ArrayN(r.buffer, old(r.position), n, S24))
  {
    ghost var start := r.position;
    var items: seq<int> := [];
    var i := 0;
    while i < n
      invariant i <= n
      invariant ArrayN(r.buffer, start, i, S24) == Ok(Parsed(items, r.position))
    {
      var item := r.ReadS24();
      if item.Err? {
        ArrayNFails(r.buffer, start, i + 1, n, S24);
        return Err(item.error);
      }
      items := items + [item.value];
      i := i + 1;
    }
    return Ok(items);
  }

  /** `read_instruction(reader)`. */
  method ReadInstruction(r: MemoryViewReader) returns (res: Result<Instruction>)
    modifies r
    ensures Agrees(res, r.position, InstructionAt(r.buffer, old(r.position)))
  {
    var op := r.ReadU8();
    if op.Err? {
      return Err(op.error);
    }
    if op.value == LOOKUP_SWITCH {
      var default := r.ReadS24();
      if default.Err? {
        return Err(default.error);
      }
      var count := r.ReadU30();
      if count.Err? {
        return Err(count.error);
      }
      var cases := ReadS24Array(r, count.value + 1);
      if cases.Err? {
        return Err(cases.error);
      }
      return Ok(LookupSwitch(default.value, cases.value));
    }
    var layout := Layout(op.value);
    if layout.None? {
      return Err(KeyError);
    }
    var fields := ReadOperands(r, layout.value);
    if fields.Err? {
      return Err(fields.error);
    }
    return Ok(Instruction(op.value, fields.value));
  }

  // ---------------------------------------------------------------------------
  // Properties
  // ---------------------------------------------------------------------------

  /**
   * The decoder yields only instructions with the operand count of their
   * class, and it always moves past the opcode.
   */
  lemma InstructionAtDecoded(buf: seq<Byte>, pos: nat)
    ensures InstructionAt(buf, pos).Ok? ==> Decoded(InstructionAt(buf, pos).value.value)
  {
    var r := InstructionAt(buf, pos);
    if r.Ok? && buf[pos] != LOOKUP_SWITCH {
      var types := Layout(buf[pos]).value;
      assert r.value.value == Instruction(buf[pos], Operands(buf, pos + 1, types).value.value);
    }
  }

  /** Decoding always moves past the opcode. */
  lemma InstructionAtAdvances(buf: seq<Byte>, pos: nat)
    ensures InstructionAt(buf, pos).Ok? ==> pos < InstructionAt(buf, pos).value.next
  {
    var r := InstructionAt(buf, pos);
    if r.Ok? && buf[pos] == LOOKUP_SWITCH {
      var d := S24(buf, pos + 1).value;
      var c := U30(buf, d.next).value;
      S24ArrayNext(buf, c.next, c.value + 1);
    }
  }

  /** Every case offset of a `LookupSwitch` takes three bytes. */
  lemma {:induction false} S24ArrayNext(buf: seq<Byte>, pos: nat, n: nat)
    ensures ArrayN(buf, pos, n, S24).Ok? ==> ArrayN(buf, pos, n, S24).value.next == pos + 3 * n
    decreases n
  {
    if n > 0 {
      S24ArrayNext(buf, pos, n - 1);
      var init := ArrayN(buf, pos, n - 1, S24);
      if init.Ok? {
        S24Range(buf, init.value.next);
      }
    }
  }

  /** An opcode without a registered class is a `KeyError`, and only such an opcode. */
  lemma UnknownOpcode(buf: seq<Byte>, pos: nat)
    requires pos < |buf|
    ensures !Registered(buf[pos]) ==> InstructionAt(buf, pos) == Err(KeyError)
    ensures Registered(buf[pos]) ==> InstructionAt(buf, pos) != Err(KeyError)
  {
    if Registered(buf[pos]) && buf[pos] != LOOKUP_SWITCH {
      OperandsNoKeyError(buf, pos + 1, Layout(buf[pos]).value);
    }
    if buf[pos] == LOOKUP_SWITCH {
      ArrayNNoKeyError(buf, pos, buf[pos]);
    }
  }

  lemma {:induction false} OperandsNoKeyError(buf: seq<Byte>, pos: nat, types: seq<OperandType>)
    ensures Operands(buf, pos, types) != Err(KeyError)
    decreases |types|
  {
    if types != [] {
      OperandsNoKeyError(buf, pos, types[..|types| - 1]);
    }
  }

  lemma ArrayNNoKeyError(buf: seq<Byte>, pos: nat, op: Byte)
    requires pos < |buf| && op == buf[pos] == LOOKUP_SWITCH
    ensures InstructionAt(buf, pos) != Err(KeyError)
  {
    var d := S24(buf, pos + 1);
    if d.Ok? {
      var c := U30(buf, d.value.next);
      if c.Ok? {
        S24ArrayNoKeyError(buf, c.value.next, c.value.value + 1);
      }
    }
  }

  lemma {:induction false} S24ArrayNoKeyError(buf: seq<Byte>, pos: nat, n: nat)
    ensures ArrayN(buf, pos, n, S24) != Err(KeyError)
    decreases n
  {
    if n > 0 {
      S24ArrayNoKeyError(buf, pos, n - 1);
    }
  }

  // ---------------------------------------------------------------------------
  // Encoding, the inverse of decoding
  // ---------------------------------------------------------------------------

  /** The values an operand of type `t` can hold. */
  predicate Fits(t: OperandType, v: int) {
    match t
    case U8Operand => 0 <= v < 0x100
    case U30Operand => 0 <= v < 0x8_0000_0000
    case UIntOperand => 0 <= v < 0x1_0000_0000
    case S24Operand => -0x80_0000 <= v < 0x80_0000
  }

  /** The bytes that `readers[t]` reads back as `v`. */
  function EncodeOperand(t: OperandType, v: int): seq<Byte>
    requires Fits(t, v)
  {
    match t
    case U8Operand => [v as Byte]
    case U30Operand => EncodeVarUInt(v)
    case UIntOperand => LittleEndianBytes(v, 4)
    case S24Operand => LittleEndianBytes(v % 0x100_0000, 3)
  }

  lemma U30OperandRoundTrip(buf: seq<Byte>, pos: nat, v: int)
    requires Fits(U30Operand, v) && At(buf, pos, EncodeOperand(U30Operand, v))
    ensures OperandAt(buf, pos, U30Operand) == Ok(Parsed(v, pos + |EncodeOperand(U30Operand, v)|))
  {
    U30Fits(v);
    VarUIntRoundTrip(buf, pos, v);
    OperandAtU30(buf, pos);
  }

  lemma U30Fits(v: int)
    requires Fits(U30Operand, v)
    ensures v < Pow2(35)
  {
    Pow2Values();
  }

  lemma OperandAtU30(buf: seq<Byte>, pos: nat)
    requires U30(buf, pos).Ok?
    ensures OperandAt(buf, pos, U30Operand) == Ok(Parsed(U30(buf, pos).value.value as int, U30(buf, pos).value.next))
  {
  }

  lemma UIntOperandRoundTrip(buf: seq<Byte>, pos: nat, v: int)
    requires Fits(UIntOperand, v) && At(buf, pos, EncodeOperand(UIntOperand, v))
    ensures OperandAt(buf, pos, UIntOperand) == Ok(Parsed(v, pos + 4))
  {
    assert v < Pow2(8 * 4) by { Pow2Values(); }
    FixedLERoundTrip(buf, pos, 4, v);
  }

  lemma OperandRoundTrip(buf: seq<Byte>, pos: nat, t: OperandType, v: int)
    requires Fits(t, v) && At(buf, pos, EncodeOperand(t, v))
    ensures OperandAt(buf, pos, t) == Ok(Parsed(v, pos + |EncodeOperand(t, v)|))
  {
    match t
    case U8Operand =>
    case U30Operand => U30OperandRoundTrip(buf, pos, v);
    case UIntOperand => UIntOperandRoundTrip(buf, pos, v);
    case S24Operand => S24RoundTrip(buf, pos, v);
  }

  /** An instruction whose opcode takes no operand is that one byte. */
  lemma NoOperandRoundTrip(buf: seq<Byte>, pos: nat)
    requires pos < |buf| && NoOperands(buf[pos])
    ensures InstructionAt(buf, pos) == Ok(Parsed(Instruction(buf[pos], []), pos + 1))
  {
  }

  /**
   * An opcode with a single operand, followed by the encoding of a value that
   * fits the operand, decodes to that value and ends right after it.
   */
  lemma OneOperandRoundTrip(buf: seq<Byte>, pos: nat, t: OperandType, v: int)
    requires pos < |buf| && buf[pos] != LOOKUP_SWITCH && Layout(buf[pos]) == Some([t])
    requires Fits(t, v) && At(buf, pos + 1, EncodeOperand(t, v))
    ensures InstructionAt(buf, pos) == Ok(Parsed(Instruction(buf[pos], [v]), pos + 1 + |EncodeOperand(t, v)|))
  {
    var next := pos + 1 + |EncodeOperand(t, v)|;
    OperandRoundTrip(buf, pos + 1, t, v);
    OperandsSingle(buf, pos + 1, t, v, next);
    InstructionAtFields(buf, pos, [t], [v], next);
  }

  /** A single field is read on its own. */
  lemma OperandsSingle(buf: seq<Byte>, pos: nat, t: OperandType, v: int, next: nat)
    requires OperandAt(buf, pos, t) == Ok(Parsed(v, next))
    ensures Operands(buf, pos, [t]) == Ok(Parsed([v], next))
  {
    assert [t][..0] == [] && [] + [v] == [v];
    assert Operands(buf, pos, [t][..0]) == Ok(Parsed([], pos));
  }

  lemma InstructionAtFields(buf: seq<Byte>, pos: nat, types: seq<OperandType>, fields: seq<int>, next: nat)
    requires pos < |buf| && buf[pos] != LOOKUP_SWITCH && Layout(buf[pos]) == Some(types)
    requires Operands(buf, pos + 1, types) == Ok(Parsed(fields, next))
    ensures InstructionAt(buf, pos) == Ok(Parsed(Instruction(buf[pos], fields), next))
  {
  }
}
