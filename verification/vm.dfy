/**
 * The virtual machine's linking tables and method entry (avm2/vm.py): the
 * method-to-body map, the class-name table, the lookups through them, and the
 * register layout `create_method_environment` builds for a call.
 *
 * vm.py reads the ABC records through attribute names the records do not
 * have (`method_body.method`, `instance.name`, `multiname.ns`,
 * `namespace.name`, `multiname.name`); the model reads the fields the
 * decoders set (`method_index`, `name_index`, `namespace_index`).
 */
module Vm {
  import opened Wrappers
  import opened Io
  import opened AbcTypes
  import opened AbcNames
  import opened Runtime
  import opened Execute

  // ---------------------------------------------------------------------------
  // Linking
  // ---------------------------------------------------------------------------

  /**
   * `{key: index for index, key in enumerate(keys)}`: every key maps to the
   * position of its last occurrence.
   */
  function LastIndex<K(==, !new)>(keys: seq<K>): (m: map<K, nat>)
    ensures forall k :: k in m <==> k in keys
    ensures forall k :: k in m ==> m[k] < |keys| && keys[m[k]] == k
    ensures forall k :: k in m ==> forall j :: m[k] < j < |keys| ==> keys[j] != k
  {
    if keys == [] then map[]
    else LastIndex(keys[..|keys| - 1])[keys[|keys| - 1] := |keys| - 1]
  }

  function MethodIndices(bodies: seq<MethodBody>): (r: seq<nat>)
    ensures |r| == |bodies| && forall i :: 0 <= i < |bodies| ==> r[i] == bodies[i].methodIndex
  {
    if bodies == [] then [] else MethodIndices(bodies[..|bodies| - 1]) + [bodies[|bodies| - 1].methodIndex]
  }

  /**
   * `link_method_bodies`: each method that has a body maps to the position of
   * that body; when several bodies name the same method, the last one wins.
   */
  function LinkMethodBodies(bodies: seq<MethodBody>): (m: map<nat, nat>)
    ensures forall k :: k in m <==> exists i :: 0 <= i < |bodies| && bodies[i].methodIndex == k
    ensures forall k :: k in m ==> m[k] < |bodies| && bodies[m[k]].methodIndex == k
    ensures forall k :: k in m ==> forall j :: m[k] < j < |bodies| ==> bodies[j].methodIndex != k
  {
    var keys := MethodIndices(bodies);
    assert forall k :: k in keys <==> exists i :: 0 <= i < |bodies| && bodies[i].methodIndex == k by {
      forall k
        ensures k in keys <==> exists i :: 0 <= i < |bodies| && bodies[i].methodIndex == k
      {
        if k in keys {
          var i :| 0 <= i < |keys| && keys[i] == k;
          assert bodies[i].methodIndex == k;
        }
      }
    }
    LastIndex(keys)
  }

  /**
   * The name `link_class_names` yields for one instance: the asserts and
   * lookups in their order, then `f'{namespace}.{name}'` with no stripping.
   */
  function ClassName(instance: Instance, pool: ConstantPool): (r: Result<seq<Byte>>)
    ensures r.Err? ==> r.error in {AssertionError, IndexError, AttributeError}
  {
    if instance.nameIndex == 0 then Err(AssertionError)
    else if instance.nameIndex >= |pool.multinames| then Err(IndexError)
    else
      match pool.multinames[instance.nameIndex]
      case None => Err(AttributeError)
      case Some(m) =>
        if m.kind != Q_NAME then Err(AssertionError)
        else if m.namespaceIndex.None? || m.namespaceIndex.value == 0 then Err(AssertionError)
        else if m.namespaceIndex.value >= |pool.namespaces| then Err(IndexError)
        else
          match pool.namespaces[m.namespaceIndex.value]
          case None => Err(AttributeError)
          case Some(ns) =>
            if ns.nameIndex == 0 then Err(AssertionError)
            else if m.nameIndex.None? || m.nameIndex.value == 0 then Err(AssertionError)
            else if ns.nameIndex >= |pool.strings| || m.nameIndex.value >= |pool.strings| then Err(IndexError)
            else Ok(Render(pool.strings[ns.nameIndex]) + [DOT] + Render(pool.strings[m.nameIndex.value]))
  }

  /**
   * `link_class_names`, consumed by `dict(...)`: the names of all instances in
   * file order, or the error of the first instance that fails.
   */
  function LinkClassNames(instances: seq<Instance>, pool: ConstantPool): (r: Result<seq<seq<Byte>>>)
    ensures r.Ok? ==> |r.value| == |instances|
    ensures r.Ok? ==> forall i :: 0 <= i < |instances| ==> ClassName(instances[i], pool) == Ok(r.value[i])
    ensures r.Err? ==>
      exists i :: 0 <= i < |instances| && ClassName(instances[i], pool) == Err(r.error)
        && forall j :: 0 <= j < i ==> ClassName(instances[j], pool).Ok?
  {
    if instances == [] then Ok([])
    else
      var names :- LinkClassNames(instances[..|instances| - 1], pool);
      var name :- ClassName(instances[|instances| - 1], pool);
      Ok(names + [name])
  }

  /** The fields `VirtualMachine.__init__` sets; none of them changes afterwards. */
  datatype Machine = Machine(file: AbcFile, methodToBody: map<nat, nat>, nameToClass: map<seq<Byte>, nat>)

  /** `VirtualMachine(abc_file)`. */
  function NewMachine(file: AbcFile): Result<Machine> {
    var names :- LinkClassNames(file.instances, file.constantPool);
    Ok(Machine(file, LinkMethodBodies(file.methodBodies), LastIndex(names)))
  }

  // ---------------------------------------------------------------------------
  // Lookups
  // ---------------------------------------------------------------------------

  /** `lookup_class`: `KeyError` for a name no instance has. */
  function LookupClass(machine: Machine, name: seq<Byte>): Result<nat> {
    if name in machine.nameToClass then Ok(machine.nameToClass[name]) else Err(KeyError)
  }

  /**
   * The lookups of `execute_method` and `execute_method_body`: the body linked
   * to the method, then the method that body names.
   */
  function MethodAndBody(machine: Machine, index: nat): Result<(Method, MethodBody)> {
    if index !in machine.methodToBody then Err(KeyError)
    else
      var b := machine.methodToBody[index];
      if b >= |machine.file.methodBodies| then Err(IndexError)
      else
        var body := machine.file.methodBodies[b];
        if body.methodIndex >= |machine.file.methods| then Err(IndexError)
        else Ok((machine.file.methods[body.methodIndex], body))
  }

  /**
   * A machine is built exactly when every instance has a class name; each
   * name then maps to the last instance that has it.
   */
  lemma LookupClassFindsLast(file: AbcFile, name: seq<Byte>)
    requires NewMachine(file).Ok?
    ensures var instances := file.instances;
      var r := LookupClass(NewMachine(file).value, name);
      (r.Ok? <==> exists i :: 0 <= i < |instances| && ClassName(instances[i], file.constantPool) == Ok(name))
      && (r.Err? ==> r.error == KeyError)
      && (r.Ok? ==>
            r.value < |instances| && ClassName(instances[r.value], file.constantPool) == Ok(name)
            && forall j :: r.value < j < |instances| ==> ClassName(instances[j], file.constantPool) != Ok(name))
  {
    var names := LinkClassNames(file.instances, file.constantPool).value;
    var m := LastIndex(names);
    if name in m {
      forall j | m[name] < j < |file.instances|
        ensures ClassName(file.instances[j], file.constantPool) != Ok(name)
      {
        assert names[j] != name;
      }
    } else {
      forall i | 0 <= i < |file.instances|
        ensures ClassName(file.instances[i], file.constantPool) != Ok(name)
      {
        assert names[i] in names;
      }
    }
  }

  /** A file in which some instance has no class name cannot be loaded; the first failing instance decides the error. */
  lemma NewMachineFails(file: AbcFile, i: nat)
    requires i < |file.instances| && ClassName(file.instances[i], file.constantPool).Err?
    requires forall j :: 0 <= j < i ==> ClassName(file.instances[j], file.constantPool).Ok?
    ensures NewMachine(file) == Err(ClassName(file.instances[i], file.constantPool).error)
  {
  }

  /**
   * A method can be entered exactly when some body names it and its index is
   * inside the method table; it is entered with the last body that names it.
   */
  lemma MethodAndBodyFindsLast(file: AbcFile, index: nat)
    requires NewMachine(file).Ok?
    ensures var bodies := file.methodBodies;
      var r := MethodAndBody(NewMachine(file).value, index);
      (r == Err(KeyError) <==> forall i :: 0 <= i < |bodies| ==> bodies[i].methodIndex != index)
      && (r.Ok? <==> (exists i :: 0 <= i < |bodies| && bodies[i].methodIndex == index) && index < |file.methods|)
      && (r.Ok? ==>
            r.value.0 == file.methods[index] && r.value.1.methodIndex == index
            && exists b :: 0 <= b < |bodies| && bodies[b] == r.value.1
                 && forall j :: b < j < |bodies| ==> bodies[j].methodIndex != index)
  {
    var m := LinkMethodBodies(file.methodBodies);
    if index in m {
      var b := m[index];
      assert file.methodBodies[b].methodIndex == index;
    }
  }

  /**
   * The name a class is registered under is the qualified name of its
   * multiname before the dots are stripped: stripping it gives
   * `ASMultiname.qualified_name`.
   */
  lemma ClassNameIsUnstrippedQualifiedName(instance: Instance, pool: ConstantPool)
    requires ClassName(instance, pool).Ok?
    ensures instance.nameIndex < |pool.multinames| && pool.multinames[instance.nameIndex].Some?
    ensures QualifiedName(pool.multinames[instance.nameIndex].value, pool) == Ok(StripDots(ClassName(instance, pool).value))
  {
  }

  /** With an empty namespace string the registered name keeps its leading dot, which `qualified_name` removes. */
  lemma EmptyNamespaceKeepsDot(instance: Instance, pool: ConstantPool)
    requires ClassName(instance, pool).Ok?
    requires var m := pool.multinames[instance.nameIndex].value;
      pool.strings[pool.namespaces[m.namespaceIndex.value].value.nameIndex] == Some([])
    ensures ClassName(instance, pool).value[0] == DOT
  {
  }

  // ---------------------------------------------------------------------------
  // Method environments
  // ---------------------------------------------------------------------------

  /** `assert not method.options or len(method.options) <= method.param_count` fails. */
  predicate TooManyOptions(info: Method) {
    info.options.Some? && info.options.value != [] && |info.options.value| > info.paramCount
  }

  /** The number of optional parameters: none when the method has no option list. */
  function OptionCount(options: Option<seq<OptionDetail>>): nat {
    if options.None? then 0 else |options.value|
  }

  /**
   * The error the `undefined` fill loop raises, as written: `len(method.options)`
   * is evaluated on every pass, and `len(None)` is a `TypeError`.
   */
  function FillErrorAsWritten(options: Option<seq<OptionDetail>>, argCount: nat, localCount: nat): Option<Error> {
    if localCount <= argCount + 1 then None
    else if options.None? then Some(TypeError)
    else if argCount + 1 <= |options.value| then Some(NotImplementedError)
    else None
  }

  /**
   * The error the fill loop raises with a missing option list read as an
   * empty one: `get_optional_value` is reached exactly when the first register
   * to fill belongs to an optional parameter.
   */
  function FillError(options: Option<seq<OptionDetail>>, argCount: nat, localCount: nat): Option<Error> {
    if argCount + 1 < localCount && argCount + 1 <= OptionCount(options) then Some(NotImplementedError) else None
  }

  /**
   * The two agree whenever the method has an option list; without one, every
   * call that leaves a register to fill raises `TypeError` as written.
   */
  lemma FillErrorAsWrittenDiffers(options: Option<seq<OptionDetail>>, argCount: nat, localCount: nat)
    ensures options.Some? ==> FillErrorAsWritten(options, argCount, localCount) == FillError(options, argCount, localCount)
    ensures options.None? && argCount + 1 < localCount ==>
      FillErrorAsWritten(options, argCount, localCount) == Some(TypeError) && FillError(options, argCount, localCount) == None
  {
  }

  /** `arguments[k:]`: empty when `k` is past the end. */
  function From(args: seq<Value>, k: nat): (r: seq<Value>)
    ensures k <= |args| ==> r == args[k..]
    ensures |args| <= k ==> r == []
  {
    if k <= |args| then args[k..] else []
  }

  /** `n` copies of `undefined`; none for `n <= 0`. */
  function Undefineds(n: int): (r: seq<Value>)
    ensures |r| == if n < 0 then 0 else n
    ensures forall i :: 0 <= i < |r| ==> r[i] == Undefined
  {
    if n <= 0 then [] else Undefineds(n - 1) + [Undefined]
  }

  /**
   * The register list `create_method_environment` returns, with Finding A
   * corrected (a missing option list counts as empty, see `FillError`), in
   * closed form: `this`, the arguments, `undefined` up to `local_count`, then the rest
   * register and the arguments register written over slot `param_count + 1`
   * in that order; or the first error the construction meets.
   */
  function Registers(info: Method, body: MethodBody, self: Value, args: seq<Value>): Result<seq<Value>> {
    var count := body.localCount;
    if count == 0 then Err(IndexError)
    else if |args| > info.paramCount then Err(AssertionError)
    else if TooManyOptions(info) then Err(AssertionError)
    else if FillError(info.options, |args|, count).Some? then Err(FillError(info.options, |args|, count).value)
    else
      var laid := [self] + args + Undefineds(count - 1 - |args|);
      var slot := info.paramCount + 1;
      var rest := HasFlag(info.flags as nat, NEED_REST);
      var all := HasFlag(info.flags as nat, NEED_ARGUMENTS);
      if (rest || all) && slot >= |laid| then Err(IndexError)
      else
        var withRest := if rest then laid[slot := List(From(args, info.paramCount))] else laid;
        var withArguments := if all then withRest[slot := List(args)] else withRest;
        if |laid| != count then Err(AssertionError) else Ok(withArguments)
  }

  /**
   * The layout of a successful call: exactly `local_count` registers,
   * `this` first, then the arguments in order, then `undefined` in every
   * register but the rest/arguments slot.
   */
  lemma RegisterLayout(info: Method, body: MethodBody, self: Value, args: seq<Value>)
    requires Registers(info, body, self, args).Ok?
    ensures var r := Registers(info, body, self, args).value;
      var slot := info.paramCount + 1;
      var special := HasFlag(info.flags as nat, NEED_REST) || HasFlag(info.flags as nat, NEED_ARGUMENTS);
      |r| == body.localCount && r[0] == self
      && (forall i :: 0 <= i < |args| ==> r[i + 1] == args[i])
      && (forall i :: |args| < i < |r| && !(special && i == slot) ==> r[i] == Undefined)
  {
  }

  /**
   * The rest register always holds an empty list, since the arguments never
   * outnumber the parameters; the arguments register holds all arguments and,
   * written second, wins when both flags are set.
   */
  lemma RestAndArgumentsRegisters(info: Method, body: MethodBody, self: Value, args: seq<Value>)
    requires Registers(info, body, self, args).Ok?
    ensures var r := Registers(info, body, self, args).value;
      var slot := info.paramCount + 1;
      (HasFlag(info.flags as nat, NEED_ARGUMENTS) ==> slot < |r| && r[slot] == List(args))
      && (HasFlag(info.flags as nat, NEED_REST) && !HasFlag(info.flags as nat, NEED_ARGUMENTS) ==>
            slot < |r| && r[slot] == List([]))
  {
  }

  /**
   * When the construction fails: no register for `this`, more arguments than
   * parameters, more options than parameters, an optional parameter to fill,
   * no room for the rest/arguments slot, or fewer registers than `this` and
   * the arguments need.
   */
  lemma RegistersErrors(info: Method, body: MethodBody, self: Value, args: seq<Value>)
    ensures body.localCount == 0 ==> Registers(info, body, self, args) == Err(IndexError)
    ensures 0 < body.localCount && |args| > info.paramCount ==> Registers(info, body, self, args) == Err(AssertionError)
    ensures (0 < body.localCount && |args| <= info.paramCount && !TooManyOptions(info)
             && |args| + 1 < body.localCount && |args| + 1 <= OptionCount(info.options)) ==>
      Registers(info, body, self, args) == Err(NotImplementedError)
    ensures (0 < body.localCount <= |args| <= info.paramCount && !TooManyOptions(info)
             && !HasFlag(info.flags as nat, NEED_REST) && !HasFlag(info.flags as nat, NEED_ARGUMENTS)) ==>
      Registers(info, body, self, args) == Err(AssertionError)
    ensures Registers(info, body, self, args).Ok? <==>
      0 < body.localCount && |args| < body.localCount && |args| <= info.paramCount && !TooManyOptions(info)
      && FillError(info.options, |args|, body.localCount).None?
      && (HasFlag(info.flags as nat, NEED_REST) || HasFlag(info.flags as nat, NEED_ARGUMENTS) ==>
            info.paramCount + 1 < body.localCount)
  {
  }

  /**
   * A method without an option list, two registers and no argument: the code
   * as written raises `TypeError`; read as having no optional parameters, the
   * second register is `undefined`.
   */
  lemma NoOptionsCounterexample(self: Value)
    ensures var info := Method(0, 0, [], 0, 0, None, None);
      var body := MethodBody(0, 0, 2, 0, 0, [], [], []);
      FillErrorAsWritten(info.options, 0, body.localCount) == Some(TypeError)
      && Registers(info, body, self, []) == Ok([self, Undefined])
  {
    var info := Method(0, 0, [], 0, 0, None, None);
    assert !HasFlag(info.flags as nat, NEED_REST) && !HasFlag(info.flags as nat, NEED_ARGUMENTS);
    assert [self] + [] + Undefineds(1) == [self, Undefined];
  }

  /**
   * `create_method_environment`'s register list, built as the source builds
   * it with Finding A corrected: a list of `local_count` fillers, `this`, the
   * slice assignment of the arguments, the fill loop (which reads a missing
   * option list as empty), then the rest and arguments registers.
   */
  method BuildRegisters(info: Method, body: MethodBody, self: Value, args: seq<Value>) returns (r: Result<seq<Value>>)
    ensures r == Registers(info, body, self, args)
  {
    var count := body.localCount;
    var registers := seq(count, _ => Ellipsis);
    if count == 0 {
      return Err(IndexError);
    }
    registers := registers[0 := self];
    if |args| > info.paramCount {
      return Err(AssertionError);
    }
    var cut := if |args| + 1 <= |registers| then |args| + 1 else |registers|;
    registers := registers[..1] + args + registers[cut..];
    if TooManyOptions(info) {
      return Err(AssertionError);
    }
    var i := |args| + 1;
    while i < count
      invariant |args| + 1 <= i <= |registers| && (|args| + 1 < count ==> i <= count)
      invariant |registers| == if count < |args| + 1 then |args| + 1 else count
      invariant registers[..|args| + 1] == [self] + args
      invariant forall j :: |args| + 1 <= j < i ==> registers[j] == Undefined
      invariant i > |args| + 1 ==> |args| + 1 > OptionCount(info.options)
    {
      if i <= OptionCount(info.options) {
        return Err(NotImplementedError);
      }
      registers := registers[i := Undefined];
      i := i + 1;
    }
    ghost var laid := [self] + args + Undefineds(count - 1 - |args|);
    assert registers == laid by {
      assert |registers| == |laid|;
      forall j | 0 <= j < |laid|
        ensures registers[j] == laid[j]
      {
        if j <= |args| {
          assert registers[j] == registers[..|args| + 1][j];
        }
      }
    }
    var slot := info.paramCount + 1;
    if HasFlag(info.flags as nat, NEED_REST) {
      if slot >= |registers| {
        return Err(IndexError);
      }
      registers := registers[slot := List(From(args, info.paramCount))];
    }
    if HasFlag(info.flags as nat, NEED_ARGUMENTS) {
      if slot >= |registers| {
        return Err(IndexError);
      }
      registers := registers[slot := List(args)];
    }
    if |registers| != count {
      return Err(AssertionError);
    }
    r := Ok(registers);
  }

  /**
   * `create_method_environment(method, method_body, this, arguments)`: a new
   * environment over the registers `Registers` describes, with both stacks
   * empty.
   */
  method CreateMethodEnvironment(info: Method, body: MethodBody, self: Value, args: seq<Value>)
    returns (r: Result<MethodEnvironment>)
    ensures r.Err? <==> Registers(info, body, self, args).Err?
    ensures r.Err? ==> r.error == Registers(info, body, self, args).error
    ensures r.Ok? ==> fresh(r.value) && r.value.State() == Frame(Registers(info, body, self, args).value, [], [])
  {
    var registers := BuildRegisters(info, body, self, args);
    if registers.Err? {
      return Err(registers.error);
    }
    var environment := new MethodEnvironment(registers.value);
    r := Ok(environment);
  }

  /**
   * `execute_method(index, this=..., arguments=...)` up to the environment it
   * hands to `execute_code`: the method's body, then its registers.
   */
  method EnterMethod(machine: Machine, index: nat, self: Value, args: seq<Value>)
    returns (r: Result<MethodEnvironment>)
    ensures MethodAndBody(machine, index).Err? ==> r == Err(MethodAndBody(machine, index).error)
    ensures MethodAndBody(machine, index).Ok? ==>
      var (info, body) := MethodAndBody(machine, index).value;
      (r.Err? <==> Registers(info, body, self, args).Err?)
      && (r.Ok? ==> fresh(r.value) && r.value.State() == Frame(Registers(info, body, self, args).value, [], []))
  {
    var found := MethodAndBody(machine, index);
    if found.Err? {
      return Err(found.error);
    }
    var (info, body) := found.value;
    r := CreateMethodEnvironment(info, body, self, args);
  }
}
