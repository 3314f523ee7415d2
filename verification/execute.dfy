/**
 * The `execute` bodies of the instructions (avm2/abc/instructions.py) and the
 * method environment they act on (avm2/vm.py, `MethodEnvironment`).
 *
 * `Step` is the reference semantics of one instruction on a `Frame`, the
 * three lists of an environment. Python exceptions are outcomes: a jump
 * (`ASJumpException`), a return (`ASReturnException`) or a raised error;
 * the frame an outcome comes with is the state the lists are left in, pops
 * that happened before an exception included. The class
 * `MethodEnvironment` performs the same pops and appends in place.
 */
module Execute {
  import opened Wrappers
  import opened Io
  import opened Runtime
  import opened PyOps
  import opened Instructions

  // ---------------------------------------------------------------------------
  // Opcodes of the classes that define `execute`
  // ---------------------------------------------------------------------------

  const KILL: Byte := 8
  const IF_NLT: Byte := 12
  const IF_NGT: Byte := 14
  const IF_FALSE: Byte := 18
  const IF_LT: Byte := 21
  const POP_SCOPE: Byte := 29
  const PUSH_NULL: Byte := 32
  const PUSH_BYTE: Byte := 36
  const PUSH_TRUE: Byte := 38
  const PUSH_FALSE: Byte := 39
  const POP: Byte := 41
  const DUP: Byte := 42
  const PUSH_STRING: Byte := 44
  const PUSH_INTEGER: Byte := 45
  const PUSH_DOUBLE: Byte := 47
  const PUSH_SCOPE: Byte := 48
  const CALL: Byte := 65
  const CONSTRUCT: Byte := 66
  const CALL_PROPERTY: Byte := 70
  const RETURN_VOID: Byte := 71
  const RETURN_VALUE: Byte := 72
  const CONSTRUCT_SUPER: Byte := 73
  const NEW_CLASS: Byte := 88
  const FIND_PROP_STRICT: Byte := 93
  const FIND_PROPERTY: Byte := 94
  const GET_LEX: Byte := 96
  const GET_SCOPE_OBJECT: Byte := 101
  const GET_PROPERTY: Byte := 102
  const INIT_PROPERTY: Byte := 104
  const CONVERT_TO_INTEGER: Byte := 115
  const CONVERT_TO_DOUBLE: Byte := 117
  const ADD: Byte := 160
  const DIVIDE: Byte := 163
  const GREATER_EQUALS: Byte := 176
  const ADD_INTEGER: Byte := 197
  const SUBTRACT_INTEGER: Byte := 198
  const GET_LOCAL_0: Byte := 208
  const SET_LOCAL_0: Byte := 212

  /**
   * The instructions whose `execute` reads the virtual machine (its constant
   * pools, global object, class table or property resolution) or produces a
   * float. Their effect is outside this model.
   */
  predicate NeedsMachine(op: Byte) {
    op == KILL || op == PUSH_NULL || op == PUSH_STRING || op == PUSH_INTEGER || op == PUSH_DOUBLE
    || op == CALL_PROPERTY || op == NEW_CLASS || op == FIND_PROP_STRICT || op == FIND_PROPERTY
    || op == GET_LEX || op == GET_PROPERTY || op == INIT_PROPERTY || op == CONVERT_TO_DOUBLE || op == DIVIDE
  }

  predicate IsBinary(op: Byte) {
    op == ADD || op == ADD_INTEGER || op == SUBTRACT_INTEGER || op == GREATER_EQUALS
  }

  predicate IsCompareBranch(op: Byte) {
    op == IF_LT || op == IF_NLT || op == IF_NGT
  }

  predicate IsGetLocal(op: Byte) {
    GET_LOCAL_0 <= op < GET_LOCAL_0 + 4
  }

  predicate IsSetLocal(op: Byte) {
    SET_LOCAL_0 <= op < SET_LOCAL_0 + 4
  }

  // ---------------------------------------------------------------------------
  // Reference semantics
  // ---------------------------------------------------------------------------

  /** The three lists of a `MethodEnvironment`; the last element of each stack is its top. */
  datatype Frame = Frame(registers: seq<Value>, operandStack: seq<Value>, scopeStack: seq<Value>)

  /** How `execute` ends: normally, with `ASJumpException`, with `ASReturnException`, or raising. */
  datatype Outcome = Continue | Jump(offset: int) | Return(value: Value) | Raise(error: Error)

  datatype Effect = Effect(frame: Frame, outcome: Outcome)

  /**
   * What `function.call(receiver, args)` and `ctor.construct(args)`
   * return. No value of the model defines these methods; the objects that do
   * are outside it, so the two calls are parameters.
   */
  datatype Host = Host(
    call: (Value, Value, seq<Value>) -> Result<Value>,
    construct: (Value, seq<Value>) -> Result<Value>)

  function Top(s: seq<Value>): Value
    requires s != []
  {
    s[|s| - 1]
  }

  /** `s` after `k` successful pops. */
  function Drop(s: seq<Value>, k: nat): seq<Value>
    requires k <= |s|
  {
    s[..|s| - k]
  }

  function WithStack(f: Frame, s: seq<Value>): Frame {
    Frame(f.registers, s, f.scopeStack)
  }

  /**
   * `k` pops from a stack holding fewer than `k` values: every value is
   * popped, then `pop from empty list` is raised.
   */
  function Underflow(f: Frame): Effect {
    Effect(WithStack(f, []), Raise(IndexError))
  }

  /** The number of values `range(n)` pops: none for a negative count. */
  function Count(n: int): nat {
    if n < 0 then 0 else n
  }

  /** `value_1 <op> value_2` for the four binary instructions. */
  function BinaryOp(op: Byte, v1: Value, v2: Value): Result<Value>
    requires IsBinary(op)
  {
    if op == ADD then Add(v1, v2)
    else if op == GREATER_EQUALS then
      var b :- GreaterEqual(v1, v2);
      Ok(Bool(b))
    else
      var a :- IntOf(v1);
      var b :- IntOf(v2);
      Ok(Int(if op == ADD_INTEGER then a + b else a - b))
  }

  /** Pop `value_2`, pop `value_1`, push the result. */
  function StepBinary(op: Byte, f: Frame): Effect
    requires IsBinary(op)
  {
    var s := f.operandStack;
    if |s| < 2 then Underflow(f)
    else
      match BinaryOp(op, s[|s| - 2], s[|s| - 1])
      case Ok(r) => Effect(WithStack(f, Drop(s, 2) + [r]), Continue)
      case Err(e) => Effect(WithStack(f, Drop(s, 2)), Raise(e))
  }

  /** Whether a conditional branch jumps on `value_1`, `value_2`. */
  function BranchTaken(op: Byte, v1: Value, v2: Value): Result<bool>
    requires IsCompareBranch(op)
  {
    if op == IF_LT then Less(v1, v2)
    else if op == IF_NLT then
      var b :- Less(v1, v2);
      Ok(!b)
    else
      var b :- Greater(v1, v2);
      Ok(!b)
  }

  function StepBranch(op: Byte, offset: int, f: Frame): Effect
    requires IsCompareBranch(op)
  {
    var s := f.operandStack;
    if |s| < 2 then Underflow(f)
    else
      var rest := WithStack(f, Drop(s, 2));
      match BranchTaken(op, s[|s| - 2], s[|s| - 1])
      case Ok(jump) => Effect(rest, if jump then Jump(offset) else Continue)
      case Err(e) => Effect(rest, Raise(e))
  }

  /** The instructions that pop one value: Dup, Pop, ConvertToInteger, IfFalse, PushScope, ReturnValue, SetLocal<n>. */
  function StepPopOne(op: Byte, operand: int, f: Frame): Effect
    requires op == DUP || op == POP || op == CONVERT_TO_INTEGER || op == IF_FALSE || op == PUSH_SCOPE
      || op == RETURN_VALUE || IsSetLocal(op)
  {
    var s := f.operandStack;
    if s == [] then Underflow(f)
    else
      var v := Top(s);
      var rest := WithStack(f, Drop(s, 1));
      if op == DUP then Effect(WithStack(f, Drop(s, 1) + [v, v]), Continue)
      else if op == POP then Effect(rest, Continue)
      else if op == CONVERT_TO_INTEGER then
        match IntOf(v)
        case Ok(i) => Effect(WithStack(f, Drop(s, 1) + [Int(i)]), Continue)
        case Err(e) => Effect(rest, Raise(e))
      else if op == IF_FALSE then Effect(rest, if Truthy(v) then Continue else Jump(operand))
      else if op == PUSH_SCOPE then
        if v.Null? || v.Undefined? then Effect(rest, Raise(AssertionError))
        else Effect(Frame(f.registers, Drop(s, 1), f.scopeStack + [v]), Continue)
      else if op == RETURN_VALUE then Effect(rest, Return(v))
      else
        var n := (op - SET_LOCAL_0) as nat;
        if n < |f.registers| then Effect(Frame(f.registers[n := v], Drop(s, 1), f.scopeStack), Continue)
        else Effect(rest, Raise(IndexError))
  }

  /** The instructions that push one value without popping: PushByte, PushTrue, PushFalse, GetLocal<n>, GetScopeObject. */
  function StepPush(op: Byte, operand: int, f: Frame): Effect
    requires op == PUSH_BYTE || op == PUSH_TRUE || op == PUSH_FALSE || IsGetLocal(op) || op == GET_SCOPE_OBJECT
  {
    var value: Result<Value> :=
      if op == PUSH_BYTE then Ok(Int(operand))
      else if op == PUSH_TRUE then Ok(Bool(true))
      else if op == PUSH_FALSE then Ok(Bool(false))
      else if op == GET_SCOPE_OBJECT then
        (if 0 <= operand < |f.scopeStack| then Ok(f.scopeStack[operand]) else Err(IndexError))
      else
        var n := (op - GET_LOCAL_0) as nat;
        if n < |f.registers| then Ok(f.registers[n]) else Err(IndexError);
    match value
    case Ok(v) => Effect(WithStack(f, f.operandStack + [v]), Continue)
    case Err(e) => Effect(f, Raise(e))
  }

  /**
   * Call, Construct and ConstructSuper: `arg_count` pops collected into a list
   * that is then reversed, then the receiver and function (Call), the
   * ctor (Construct) or the object (ConstructSuper).
   */
  function StepInvoke(op: Byte, argCount: int, f: Frame, host: Host): Effect
    requires op == CALL || op == CONSTRUCT || op == CONSTRUCT_SUPER
  {
    var s := f.operandStack;
    var n := Count(argCount);
    var k := if op == CALL then n + 2 else n + 1;
    if |s| < k then Underflow(f)
    else
      var args := s[|s| - n..];
      var rest := WithStack(f, Drop(s, k));
      if op == CONSTRUCT_SUPER then
        var target := s[|s| - n - 1];
        Effect(rest, if target.Null? || target.Undefined? then Raise(NotImplementedError) else Continue)
      else
        var r := if op == CALL then host.call(s[|s| - n - 2], s[|s| - n - 1], args)
          else host.construct(s[|s| - n - 1], args);
        match r
        case Ok(v) => Effect(WithStack(f, Drop(s, k) + [v]), Continue)
        case Err(e) => Effect(rest, Raise(e))
  }

  /**
   * `instruction.execute(machine, environment)`. An instruction class without
   * its own `execute` inherits the one that raises `NotImplementedError`.
   */
  function Step(ins: Instruction, f: Frame, host: Host): Effect
    requires Decoded(ins)
  {
    match ins
    case LookupSwitch(_, _) => Effect(f, Raise(NotImplementedError))
    case Instruction(op, operands) =>
      if NeedsMachine(op) then Effect(f, Raise(Unmodelled))
      else if IsBinary(op) then StepBinary(op, f)
      else if IsCompareBranch(op) then StepBranch(op, operands[0], f)
      else if op == DUP || op == POP || op == CONVERT_TO_INTEGER || op == PUSH_SCOPE || op == RETURN_VALUE
        || IsSetLocal(op) then StepPopOne(op, 0, f)
      else if op == IF_FALSE then StepPopOne(op, operands[0], f)
      else if op == PUSH_TRUE || op == PUSH_FALSE || IsGetLocal(op) then StepPush(op, 0, f)
      else if op == PUSH_BYTE || op == GET_SCOPE_OBJECT then StepPush(op, operands[0], f)
      else if op == CALL || op == CONSTRUCT || op == CONSTRUCT_SUPER then StepInvoke(op, operands[0], f, host)
      else if op == POP_SCOPE then
        if f.scopeStack == [] then Effect(f, Raise(IndexError))
        else Effect(Frame(f.registers, f.operandStack, Drop(f.scopeStack, 1)), Continue)
      else if op == RETURN_VOID then Effect(f, Return(Undefined))
      else Effect(f, Raise(NotImplementedError))
  }

  // ---------------------------------------------------------------------------
  // Stack discipline
  // ---------------------------------------------------------------------------

  /** The opcodes of the classes that define their own `execute`. */
  predicate HasExecute(op: Byte) {
    NeedsMachine(op) || IsBinary(op) || IsCompareBranch(op) || IsGetLocal(op) || IsSetLocal(op)
    || op == DUP || op == POP || op == CONVERT_TO_INTEGER || op == IF_FALSE || op == PUSH_SCOPE
    || op == RETURN_VALUE || op == RETURN_VOID || op == POP_SCOPE || op == PUSH_BYTE || op == PUSH_TRUE
    || op == PUSH_FALSE || op == GET_SCOPE_OBJECT || op == CALL || op == CONSTRUCT || op == CONSTRUCT_SUPER
  }

  /** How many operand-stack values an instruction pops. */
  function Pops(ins: Instruction): nat
    requires Decoded(ins)
  {
    match ins
    case LookupSwitch(_, _) => 0
    case Instruction(op, operands) =>
      if NeedsMachine(op) then 0
      else if IsBinary(op) || IsCompareBranch(op) then 2
      else if op == DUP || op == POP || op == CONVERT_TO_INTEGER || op == IF_FALSE || op == PUSH_SCOPE
        || op == RETURN_VALUE || IsSetLocal(op) then 1
      else if op == CALL then Count(operands[0]) + 2
      else if op == CONSTRUCT || op == CONSTRUCT_SUPER then Count(operands[0]) + 1
      else 0
  }

  /** How many values an instruction pushes when it completes normally. */
  function Pushes(ins: Instruction): nat {
    match ins
    case LookupSwitch(_, _) => 0
    case Instruction(op, _) =>
      if NeedsMachine(op) then 0
      else if op == DUP then 2
      else if IsBinary(op) || op == CONVERT_TO_INTEGER || op == PUSH_BYTE || op == PUSH_TRUE || op == PUSH_FALSE
        || IsGetLocal(op) || op == GET_SCOPE_OBJECT || op == CALL || op == CONSTRUCT then 1
      else 0
  }

  /** A class without its own `execute` raises `NotImplementedError` and leaves the environment alone. */
  lemma WithoutExecute(ins: Instruction, f: Frame, host: Host)
    requires Decoded(ins) && (ins.LookupSwitch? || !HasExecute(ins.opcode))
    ensures Step(ins, f, host) == Effect(f, Raise(NotImplementedError))
  {
  }

  /** Too few values on the operand stack: all of them are popped and `IndexError` is raised. */
  lemma StackUnderflow(ins: Instruction, f: Frame, host: Host)
    requires Decoded(ins) && |f.operandStack| < Pops(ins)
    ensures Step(ins, f, host).outcome == Raise(IndexError)
    ensures Step(ins, f, host).frame == Frame(f.registers, [], f.scopeStack)
  {
  }

  /**
   * With enough values, an instruction pops exactly `Pops(ins)` of them, leaves
   * the values below untouched, and pushes `Pushes(ins)` values when it
   * completes normally and none otherwise.
   */
  lemma StackDiscipline(ins: Instruction, f: Frame, host: Host)
    requires Decoded(ins) && Pops(ins) <= |f.operandStack|
    requires ins.Instruction? ==> !NeedsMachine(ins.opcode)
    ensures Disciplined(f.operandStack, Step(ins, f, host), Pops(ins), Pushes(ins))
  {
    if ins.Instruction? {
      var op := ins.opcode;
      if IsBinary(op) {
        BinaryDiscipline(op, f);
      } else if IsCompareBranch(op) {
        BranchDiscipline(op, ins.operands[0], f);
      } else if op == CALL || op == CONSTRUCT || op == CONSTRUCT_SUPER {
        InvokeDiscipline(op, ins.operands[0], f, host);
      } else if op == DUP || op == POP || op == CONVERT_TO_INTEGER || op == PUSH_SCOPE || op == RETURN_VALUE
        || IsSetLocal(op) || op == IF_FALSE {
        PopOneDiscipline(op, if op == IF_FALSE then ins.operands[0] else 0, f);
      } else if op == PUSH_TRUE || op == PUSH_FALSE || IsGetLocal(op) || op == PUSH_BYTE || op == GET_SCOPE_OBJECT {
        PushDiscipline(op, if op == PUSH_BYTE || op == GET_SCOPE_OBJECT then ins.operands[0] else 0, f);
      }
    }
  }

  /**
   * After popping `pops` values and, on normal completion, pushing `pushes`,
   * the stack below the popped values is untouched.
   */
  predicate Disciplined(s: seq<Value>, e: Effect, pops: nat, pushes: nat) {
    var s' := e.frame.operandStack;
    pops <= |s|
    && |s'| == |s| - pops + (if e.outcome.Continue? then pushes else 0)
    && s'[..|s| - pops] == Drop(s, pops)
  }

  lemma BinaryDiscipline(op: Byte, f: Frame)
    requires IsBinary(op) && 2 <= |f.operandStack|
    ensures Disciplined(f.operandStack, StepBinary(op, f), 2, 1)
  {
  }

  lemma BranchDiscipline(op: Byte, offset: int, f: Frame)
    requires IsCompareBranch(op) && 2 <= |f.operandStack|
    ensures Disciplined(f.operandStack, StepBranch(op, offset, f), 2, 0)
  {
  }

  lemma PopOneDiscipline(op: Byte, operand: int, f: Frame)
    requires op == DUP || op == POP || op == CONVERT_TO_INTEGER || op == IF_FALSE || op == PUSH_SCOPE
      || op == RETURN_VALUE || IsSetLocal(op)
    requires f.operandStack != []
    ensures Disciplined(f.operandStack, StepPopOne(op, operand, f), 1,
      if op == DUP then 2 else if op == CONVERT_TO_INTEGER then 1 else 0)
  {
  }

  lemma PushDiscipline(op: Byte, operand: int, f: Frame)
    requires op == PUSH_BYTE || op == PUSH_TRUE || op == PUSH_FALSE || IsGetLocal(op) || op == GET_SCOPE_OBJECT
    ensures Disciplined(f.operandStack, StepPush(op, operand, f), 0, 1)
  {
  }

  lemma InvokeDiscipline(op: Byte, argCount: int, f: Frame, host: Host)
    requires op == CALL || op == CONSTRUCT || op == CONSTRUCT_SUPER
    requires Count(argCount) + (if op == CALL then 2 else 1) <= |f.operandStack|
    ensures Disciplined(f.operandStack, StepInvoke(op, argCount, f, host),
      Count(argCount) + (if op == CALL then 2 else 1), if op == CONSTRUCT_SUPER then 0 else 1)
  {
  }

  /** Only `SetLocal<n>` writes a register, and only register `n`. */
  lemma RegistersKept(ins: Instruction, f: Frame, host: Host)
    requires Decoded(ins)
    ensures ins.Instruction? && IsSetLocal(ins.opcode) && Step(ins, f, host).outcome.Continue? ==>
      Step(ins, f, host).frame.registers == f.registers[ins.opcode - SET_LOCAL_0 := Top(f.operandStack)]
    ensures !(ins.Instruction? && IsSetLocal(ins.opcode) && Step(ins, f, host).outcome.Continue?) ==>
      Step(ins, f, host).frame.registers == f.registers
  {
  }

  /** Only `PushScope` and `PopScope` change the scope stack, by one value at its top. */
  lemma ScopeStackKept(ins: Instruction, f: Frame, host: Host)
    requires Decoded(ins)
    ensures ins.Instruction? && ins.opcode == PUSH_SCOPE && Step(ins, f, host).outcome.Continue? ==>
      Step(ins, f, host).frame.scopeStack == f.scopeStack + [Top(f.operandStack)]
    ensures ins.Instruction? && ins.opcode == POP_SCOPE && Step(ins, f, host).outcome.Continue? ==>
      Step(ins, f, host).frame.scopeStack == Drop(f.scopeStack, 1)
    ensures !(ins.Instruction? && (ins.opcode == PUSH_SCOPE || ins.opcode == POP_SCOPE)) ==>
      Step(ins, f, host).frame.scopeStack == f.scopeStack
  {
  }

  // ---------------------------------------------------------------------------
  // What single instructions do
  // ---------------------------------------------------------------------------

  /** Python's falsy values among the model's values: `None`, `False`, `0`, `''` and `[]`. */
  predicate Falsy(v: Value) {
    v == Null || v == Bool(false) || v == Int(0) || v == Str([]) || v == List([])
  }

  /**
   * `IfFalse` jumps exactly on a falsy value; `undefined` and every object,
   * an empty `ASString` included, fall through.
   */
  lemma IfFalseJumps(offset: int, f: Frame, host: Host)
    requires f.operandStack != []
    ensures var e := Step(Instruction(IF_FALSE, [offset]), f, host);
      e.frame == WithStack(f, Drop(f.operandStack, 1))
      && (e.outcome == Jump(offset) <==> Falsy(Top(f.operandStack)))
      && (e.outcome != Jump(offset) ==> e.outcome == Continue)
  {
  }

  /**
   * On two values Python can order, exactly one of `IfLT` and `IfNLT` jumps;
   * on any other pair both raise the same error.
   */
  lemma LessBranchesComplement(base: seq<Value>, v1: Value, v2: Value, offset: int, f: Frame, host: Host)
    requires f.operandStack == base + [v1, v2]
    ensures var lt := Step(Instruction(IF_LT, [offset]), f, host);
      var nlt := Step(Instruction(IF_NLT, [offset]), f, host);
      lt.frame == nlt.frame
      && (Compare(v1, v2).Ok? ==>
            (lt.outcome == Jump(offset) <==> nlt.outcome == Continue)
            && (lt.outcome == Continue <==> nlt.outcome == Jump(offset)))
      && (Compare(v1, v2).Err? ==> lt.outcome == nlt.outcome == Raise(Compare(v1, v2).error))
  {
    var s := f.operandStack;
    assert s[|s| - 2] == v1 && s[|s| - 1] == v2 && Drop(s, 2) == base;
  }

  /** On numbers, `IfNGT` jumps exactly when `value_1 <= value_2` and `IfLT` exactly when `value_1 < value_2`. */
  lemma NumericBranches(base: seq<Value>, v1: Value, v2: Value, offset: int, f: Frame, host: Host)
    requires Number(v1).Some? && Number(v2).Some?
    requires f.operandStack == base + [v1, v2]
    ensures Step(Instruction(IF_NGT, [offset]), f, host).outcome ==
      (if Number(v1).value <= Number(v2).value then Jump(offset) else Continue)
    ensures Step(Instruction(IF_LT, [offset]), f, host).outcome ==
      (if Number(v1).value < Number(v2).value then Jump(offset) else Continue)
  {
    var s := f.operandStack;
    assert s[|s| - 2] == v1 && s[|s| - 1] == v2 && Drop(s, 2) == base;
    NumericOrder(v1, v2);
  }

  /** `GreaterEquals` pushes the negation of `value_1 < value_2`, and raises where `<` raises. */
  lemma GreaterEqualsIsNotLess(base: seq<Value>, v1: Value, v2: Value, f: Frame, host: Host)
    requires f.operandStack == base + [v1, v2]
    ensures var e := Step(Instruction(GREATER_EQUALS, []), f, host);
      (Less(v1, v2).Ok? ==> e == Effect(WithStack(f, base + [Bool(!Less(v1, v2).value)]), Continue))
      && (Less(v1, v2).Err? ==> e == Effect(WithStack(f, base), Raise(Less(v1, v2).error)))
  {
    var s := f.operandStack;
    assert s[|s| - 2] == v1 && s[|s| - 1] == v2 && Drop(s, 2) == base;
    CompareSymmetry(v1, v2);
  }

  /**
   * `AddInteger` and `SubtractInteger` pop `value_2`, then `value_1`, and push
   * `int(value_1) + int(value_2)` or `int(value_1) - int(value_2)` on
   * unbounded integers; a value `int()` rejects raises its error, `value_1`
   * first, with both values popped.
   */
  lemma IntegerArithmetic(base: seq<Value>, v1: Value, v2: Value, f: Frame, host: Host)
    requires f.operandStack == base + [v1, v2]
    ensures var add := Step(Instruction(ADD_INTEGER, []), f, host);
      var sub := Step(Instruction(SUBTRACT_INTEGER, []), f, host);
      (IntOf(v1).Ok? && IntOf(v2).Ok? ==>
        add == Effect(WithStack(f, base + [Int(IntOf(v1).value + IntOf(v2).value)]), Continue)
        && sub == Effect(WithStack(f, base + [Int(IntOf(v1).value - IntOf(v2).value)]), Continue))
      && (IntOf(v1).Err? ==>
        add == Effect(WithStack(f, base), Raise(IntOf(v1).error)) && sub == add)
      && (IntOf(v1).Ok? && IntOf(v2).Err? ==>
        add == Effect(WithStack(f, base), Raise(IntOf(v2).error)) && sub == add)
  {
    var s := f.operandStack;
    assert s[|s| - 2] == v1 && s[|s| - 1] == v2 && Drop(s, 2) == base;
  }

  /** No ToInt32 wrap-around: 2^31 - 1 + 1 is 2^31, as an instance of `IntegerArithmetic`. */
  lemma IntegerArithmeticDoesNotWrap(f: Frame, host: Host)
    requires f.operandStack == [Int(0x7FFF_FFFF), Int(1)]
    ensures Step(Instruction(ADD_INTEGER, []), f, host) == Effect(WithStack(f, [Int(0x8000_0000)]), Continue)
    ensures Step(Instruction(SUBTRACT_INTEGER, []), f, host) == Effect(WithStack(f, [Int(0x7FFF_FFFE)]), Continue)
  {
    assert f.operandStack == [] + [Int(0x7FFF_FFFF), Int(1)];
    IntegerArithmetic([], Int(0x7FFF_FFFF), Int(1), f, host);
  }

  /** `Dup` leaves two copies of the top; `Pop` after it restores the environment. */
  lemma DupThenPop(f: Frame, host: Host)
    requires f.operandStack != []
    ensures Step(Instruction(DUP, []), f, host) == Effect(WithStack(f, f.operandStack + [Top(f.operandStack)]), Continue)
    ensures Step(Instruction(POP, []), Step(Instruction(DUP, []), f, host).frame, host) == Effect(f, Continue)
  {
    var s := f.operandStack;
    assert Drop(s, 1) + [Top(s), Top(s)] == s + [Top(s)];
    assert Drop(s + [Top(s)], 1) == s;
  }

  /**
   * `SetLocal<n>` then `GetLocal<n>`: register `n` holds the popped value and
   * the operand stack is as it was.
   */
  lemma SetThenGetLocal(n: nat, f: Frame, host: Host)
    requires n < 4 && n < |f.registers| && f.operandStack != []
    ensures var stored := Step(Instruction(SET_LOCAL_0 + n as Byte, []), f, host);
      stored.outcome == Continue && stored.frame.registers[n] == Top(f.operandStack)
      && Step(Instruction(GET_LOCAL_0 + n as Byte, []), stored.frame, host) == Effect(WithStack(stored.frame, f.operandStack), Continue)
  {
    var s := f.operandStack;
    assert Drop(s, 1) + [Top(s)] == s;
  }

  /** A register index past the end raises `IndexError`; `SetLocal<n>` has popped its value by then. */
  lemma LocalOutOfRange(n: nat, f: Frame, host: Host)
    requires n < 4 && |f.registers| <= n
    ensures Step(Instruction(GET_LOCAL_0 + n as Byte, []), f, host) == Effect(f, Raise(IndexError))
    ensures f.operandStack != [] ==>
      Step(Instruction(SET_LOCAL_0 + n as Byte, []), f, host) == Effect(WithStack(f, Drop(f.operandStack, 1)), Raise(IndexError))
  {
  }

  /**
   * `PushScope` moves any value but `None` and `undefined` to the scope stack;
   * `GetScopeObject` of the new top pushes it back, and `PopScope` removes it.
   */
  lemma PushScopeThenUse(f: Frame, host: Host)
    requires f.operandStack != []
    ensures var v := Top(f.operandStack);
      var pushed := Step(Instruction(PUSH_SCOPE, []), f, host);
      (v.Null? || v.Undefined?) ==> pushed.outcome == Raise(AssertionError)
    ensures var v := Top(f.operandStack);
      var pushed := Step(Instruction(PUSH_SCOPE, []), f, host);
      !(v.Null? || v.Undefined?) ==>
        pushed.outcome == Continue
        && Step(Instruction(GET_SCOPE_OBJECT, [|f.scopeStack|]), pushed.frame, host)
          == Effect(Frame(f.registers, f.operandStack, f.scopeStack + [v]), Continue)
        && Step(Instruction(POP_SCOPE, []), pushed.frame, host) == Effect(WithStack(f, Drop(f.operandStack, 1)), Continue)
  {
    var s := f.operandStack;
    assert Drop(s, 1) + [Top(s)] == s;
    assert Drop(f.scopeStack + [Top(s)], 1) == f.scopeStack;
  }

  /** `PushByte` pushes its operand as it is, with no sign extension. */
  lemma PushByteUnsigned(buf: seq<Byte>, pos: nat, f: Frame, host: Host)
    requires pos + 1 < |buf| && buf[pos] == PUSH_BYTE
    ensures InstructionAt(buf, pos) == Ok(Parsed(Instruction(PUSH_BYTE, [buf[pos + 1] as int]), pos + 2))
    ensures Step(Instruction(PUSH_BYTE, [buf[pos + 1] as int]), f, host)
      == Effect(WithStack(f, f.operandStack + [Int(buf[pos + 1] as int)]), Continue)
    ensures 0 <= buf[pos + 1] as int < 0x100
  {
    assert At(buf, pos + 1, EncodeOperand(U8Operand, buf[pos + 1] as int)) by {
      assert buf[pos + 1..pos + 2] == [buf[pos + 1]];
    }
    OneOperandRoundTrip(buf, pos, U8Operand, buf[pos + 1] as int);
  }

  /** `ReturnValue` returns the popped top; `ReturnVoid` returns `undefined` and pops nothing. */
  lemma Returns(f: Frame, host: Host)
    ensures f.operandStack != [] ==>
      Step(Instruction(RETURN_VALUE, []), f, host) == Effect(WithStack(f, Drop(f.operandStack, 1)), Return(Top(f.operandStack)))
    ensures Step(Instruction(RETURN_VOID, []), f, host) == Effect(f, Return(Undefined))
  {
  }

  /**
   * `Call` with `n` arguments over a stack `base + [callee, receiver] + args`
   * hands the host the arguments in the order they were pushed, and replaces
   * the `n + 2` values by the result.
   */
  lemma CallArguments(base: seq<Value>, callee: Value, receiver: Value, args: seq<Value>, f: Frame, host: Host)
    requires f.operandStack == base + [callee, receiver] + args
    ensures var e := Step(Instruction(CALL, [|args|]), f, host);
      match host.call(callee, receiver, args)
      case Ok(v) => e == Effect(WithStack(f, base + [v]), Continue)
      case Err(err) => e == Effect(WithStack(f, base), Raise(err))
  {
    var s := f.operandStack;
    var n := |args|;
    assert s[|s| - n..] == args;
    assert s[|s| - n - 2] == callee && s[|s| - n - 1] == receiver;
    assert Drop(s, n + 2) == base;
  }

  /** `Construct` with `n` arguments over `base + [ctor] + args`, likewise. */
  lemma ConstructArguments(base: seq<Value>, ctor: Value, args: seq<Value>, f: Frame, host: Host)
    requires f.operandStack == base + [ctor] + args
    ensures var e := Step(Instruction(CONSTRUCT, [|args|]), f, host);
      match host.construct(ctor, args)
      case Ok(v) => e == Effect(WithStack(f, base + [v]), Continue)
      case Err(err) => e == Effect(WithStack(f, base), Raise(err))
  {
    var s := f.operandStack;
    var n := |args|;
    assert s[|s| - n..] == args;
    assert s[|s| - n - 1] == ctor;
    assert Drop(s, n + 1) == base;
  }

  /**
   * `ConstructSuper` pops its arguments and the object, rejects `None` and
   * `undefined`, and otherwise does nothing more.
   */
  lemma ConstructSuperChecksObject(base: seq<Value>, target: Value, args: seq<Value>, f: Frame, host: Host)
    requires f.operandStack == base + [target] + args
    ensures Step(Instruction(CONSTRUCT_SUPER, [|args|]), f, host) ==
      Effect(WithStack(f, base), if target == Null || target == Undefined then Raise(NotImplementedError) else Continue)
  {
    var s := f.operandStack;
    var n := |args|;
    assert s[|s| - n - 1] == target;
    assert Drop(s, n + 1) == base;
  }

  // ---------------------------------------------------------------------------
  // The method environment and `execute`, step by step
  // ---------------------------------------------------------------------------

  /** `s` read backwards: what `list.reverse()` leaves. */
  function Reverse(s: seq<Value>): (r: seq<Value>)
    ensures |r| == |s|
    ensures forall j :: 0 <= j < |s| ==> r[j] == s[|s| - 1 - j]
  {
    if s == [] then [] else [s[|s| - 1]] + Reverse(s[..|s| - 1])
  }

  /**
   * `MethodEnvironment`: the registers, operand stack and scope stack of one
   * method activation, which the instructions update in place.
   */
  class MethodEnvironment {
    var registers: seq<Value>
    var operandStack: seq<Value>
    var scopeStack: seq<Value>

    /** `MethodEnvironment(registers)`: both stacks start empty. */
    constructor (registers: seq<Value>)
      ensures this.registers == registers && operandStack == [] && scopeStack == []
    {
      this.registers := registers;
      operandStack := [];
      scopeStack := [];
    }

    function State(): Frame
      reads this
    {
      Frame(registers, operandStack, scopeStack)
    }

    /** `operand_stack.pop()`: `IndexError` on an empty stack. */
    method Pop() returns (r: Result<Value>)
      modifies this
      ensures registers == old(registers) && scopeStack == old(scopeStack)
      ensures old(operandStack) == [] ==> r == Err(IndexError) && operandStack == []
      ensures old(operandStack) != [] ==>
        r == Ok(Top(old(operandStack))) && operandStack == Drop(old(operandStack), 1)
    {
      if operandStack == [] {
        return Err(IndexError);
      }
      r := Ok(operandStack[|operandStack| - 1]);
      operandStack := operandStack[..|operandStack| - 1];
    }

    /** `operand_stack.append(v)`. */
    method Push(v: Value)
      modifies this
      ensures registers == old(registers) && scopeStack == old(scopeStack)
      ensures operandStack == old(operandStack) + [v]
    {
      operandStack := operandStack + [v];
    }

    /**
     * `args = [operand_stack.pop() for i in range(count)]; args.reverse()`:
     * the top `count` values in the order they were pushed. On a stack too
     * short for them every value is popped before `IndexError` is raised.
     */
    method PopArgs(count: int) returns (r: Result<seq<Value>>)
      modifies this
      ensures registers == old(registers) && scopeStack == old(scopeStack)
      ensures Count(count) <= |old(operandStack)| ==>
        r == Ok(old(operandStack)[|old(operandStack)| - Count(count)..])
        && operandStack == Drop(old(operandStack), Count(count))
      ensures |old(operandStack)| < Count(count) ==> r == Err(IndexError) && operandStack == []
    {
      var n := Count(count);
      var popped: seq<Value> := [];
      var i := 0;
      while i < n
        invariant 0 <= i <= n && i <= |old(operandStack)|
        invariant operandStack == Drop(old(operandStack), i)
        invariant |popped| == i
        invariant forall j :: 0 <= j < i ==> popped[j] == old(operandStack)[|old(operandStack)| - 1 - j]
        invariant registers == old(registers) && scopeStack == old(scopeStack)
      {
        var v := Pop();
        if v.Err? {
          return Err(v.error);
        }
        popped := popped + [v.value];
        i := i + 1;
      }
      var args := Reverse(popped);
      ghost var s := old(operandStack);
      assert forall j :: 0 <= j < n ==> args[j] == s[|s| - n + j];
      assert args == s[|s| - n..];
      r := Ok(args);
    }

    /** Add, AddInteger, SubtractInteger, GreaterEquals: pop `value_2`, pop `value_1`, push the result. */
    method ExecuteBinary(op: Byte) returns (outcome: Outcome)
      requires IsBinary(op)
      modifies this
      ensures Effect(State(), outcome) == StepBinary(op, old(State()))
    {
      var v2 := Pop();
      if v2.Err? {
        return Raise(v2.error);
      }
      var v1 := Pop();
      if v1.Err? {
        return Raise(v1.error);
      }
      match BinaryOp(op, v1.value, v2.value)
      case Ok(r) =>
        Push(r);
        outcome := Continue;
      case Err(e) =>
        outcome := Raise(e);
    }

    /** IfLT, IfNLT, IfNGT: pop both operands, then jump or fall through. */
    method ExecuteBranch(op: Byte, offset: int) returns (outcome: Outcome)
      requires IsCompareBranch(op)
      modifies this
      ensures Effect(State(), outcome) == StepBranch(op, offset, old(State()))
    {
      var v2 := Pop();
      if v2.Err? {
        return Raise(v2.error);
      }
      var v1 := Pop();
      if v1.Err? {
        return Raise(v1.error);
      }
      match BranchTaken(op, v1.value, v2.value)
      case Ok(jump) =>
        outcome := if jump then Jump(offset) else Continue;
      case Err(e) =>
        outcome := Raise(e);
    }

    /** The instructions that start by popping one value. */
    method ExecutePopOne(op: Byte, operand: int) returns (outcome: Outcome)
      requires op == DUP || op == POP || op == CONVERT_TO_INTEGER || op == IF_FALSE || op == PUSH_SCOPE
        || op == RETURN_VALUE || IsSetLocal(op)
      modifies this
      ensures Effect(State(), outcome) == StepPopOne(op, operand, old(State()))
    {
      var popped := Pop();
      if popped.Err? {
        return Raise(popped.error);
      }
      var v := popped.value;
      if op == DUP {
        Push(v);
        Push(v);
        outcome := Continue;
      } else if op == POP {
        outcome := Continue;
      } else if op == CONVERT_TO_INTEGER {
        match IntOf(v)
        case Ok(i) =>
          Push(Int(i));
          outcome := Continue;
        case Err(e) =>
          outcome := Raise(e);
      } else if op == IF_FALSE {
        outcome := if Truthy(v) then Continue else Jump(operand);
      } else if op == PUSH_SCOPE {
        if v.Null? || v.Undefined? {
          outcome := Raise(AssertionError);
        } else {
          scopeStack := scopeStack + [v];
          outcome := Continue;
        }
      } else if op == RETURN_VALUE {
        outcome := Return(v);
      } else {
        var n := (op - SET_LOCAL_0) as nat;
        if n < |registers| {
          registers := registers[n := v];
          outcome := Continue;
        } else {
          outcome := Raise(IndexError);
        }
      }
    }

    /** PushByte, PushTrue, PushFalse, GetLocal<n>, GetScopeObject: push one value. */
    method ExecutePush(op: Byte, operand: int) returns (outcome: Outcome)
      requires op == PUSH_BYTE || op == PUSH_TRUE || op == PUSH_FALSE || IsGetLocal(op) || op == GET_SCOPE_OBJECT
      modifies this
      ensures Effect(State(), outcome) == StepPush(op, operand, old(State()))
    {
      var v: Value;
      if op == PUSH_BYTE {
        v := Int(operand);
      } else if op == PUSH_TRUE {
        v := Bool(true);
      } else if op == PUSH_FALSE {
        v := Bool(false);
      } else if op == GET_SCOPE_OBJECT {
        if !(0 <= operand < |scopeStack|) {
          return Raise(IndexError);
        }
        v := scopeStack[operand];
      } else {
        var n := (op - GET_LOCAL_0) as nat;
        if |registers| <= n {
          return Raise(IndexError);
        }
        v := registers[n];
      }
      Push(v);
      outcome := Continue;
    }

    /** Call: pop the arguments, the receiver and the function, push what the call returns. */
    method ExecuteCall(argCount: int, host: Host) returns (outcome: Outcome)
      modifies this
      ensures Effect(State(), outcome) == StepInvoke(CALL, argCount, old(State()), host)
    {
      var args := PopArgs(argCount);
      if args.Err? {
        return Raise(args.error);
      }
      var receiver := Pop();
      if receiver.Err? {
        return Raise(receiver.error);
      }
      var callee := Pop();
      if callee.Err? {
        return Raise(callee.error);
      }
      match host.call(callee.value, receiver.value, args.value)
      case Ok(v) =>
        Push(v);
        outcome := Continue;
      case Err(e) =>
        outcome := Raise(e);
    }

    /**
     * Construct and ConstructSuper: pop the arguments and the constructor or
     * object; Construct pushes what the construction returns.
     */
    method ExecuteConstruct(op: Byte, argCount: int, host: Host) returns (outcome: Outcome)
      requires op == CONSTRUCT || op == CONSTRUCT_SUPER
      modifies this
      ensures Effect(State(), outcome) == StepInvoke(op, argCount, old(State()), host)
    {
      var args := PopArgs(argCount);
      if args.Err? {
        return Raise(args.error);
      }
      var target := Pop();
      if target.Err? {
        return Raise(target.error);
      }
      if op == CONSTRUCT_SUPER {
        outcome := if target.value.Null? || target.value.Undefined? then Raise(NotImplementedError) else Continue;
      } else {
        match host.construct(target.value, args.value)
        case Ok(v) =>
          Push(v);
          outcome := Continue;
        case Err(e) =>
          outcome := Raise(e);
      }
    }

    /**
     * `instruction.execute(machine, self)`: the environment after the call,
     * and how the call ended, are those `Step` describes.
     */
    method Execute(ins: Instruction, host: Host) returns (outcome: Outcome)
      requires Decoded(ins)
      modifies this
      ensures Effect(State(), outcome) == Step(ins, old(State()), host)
    {
      match ins
      case LookupSwitch(_, _) =>
        outcome := Raise(NotImplementedError);
      case Instruction(op, operands) =>
        if NeedsMachine(op) {
          outcome := Raise(Unmodelled);
        } else if IsBinary(op) {
          outcome := ExecuteBinary(op);
        } else if IsCompareBranch(op) {
          outcome := ExecuteBranch(op, operands[0]);
        } else if op == DUP || op == POP || op == CONVERT_TO_INTEGER || op == PUSH_SCOPE || op == RETURN_VALUE
          || IsSetLocal(op) {
          outcome := ExecutePopOne(op, 0);
        } else if op == IF_FALSE {
          outcome := ExecutePopOne(op, operands[0]);
        } else if op == PUSH_TRUE || op == PUSH_FALSE || IsGetLocal(op) {
          outcome := ExecutePush(op, 0);
        } else if op == PUSH_BYTE || op == GET_SCOPE_OBJECT {
          outcome := ExecutePush(op, operands[0]);
        } else if op == CALL {
          outcome := ExecuteCall(operands[0], host);
        } else if op == CONSTRUCT || op == CONSTRUCT_SUPER {
          outcome := ExecuteConstruct(op, operands[0], host);
        } else if op == POP_SCOPE {
          if scopeStack == [] {
            outcome := Raise(IndexError);
          } else {
            scopeStack := scopeStack[..|scopeStack| - 1];
            outcome := Continue;
          }
        } else if op == RETURN_VOID {
          outcome := Return(Undefined);
        } else {
          outcome := Raise(NotImplementedError);
        }
    }
  }
}
