/**
 * Reference decoders for the records of avm2/abc/types.py: what each
 * constructor reads from a buffer starting at a position, and where it stops.
 * The imperative decoders of module `AbcReader` are proved to agree with them.
 *
 * The helpers `read_array`, `read_array_with_default` and `read_string` of
 * avm2/abc/parser.py are not part of this model; they are given here by their
 * contracts: a u30 count followed by that many items (or exactly `n` items
 * when the caller passes a count), a u30 count `c` followed by `c - 1` items
 * with a default entry in front, and a u30 byte length followed by that many
 * bytes.
 */
module AbcDecode {
  import opened Wrappers
  import opened Io
  import opened AbcTypes

  // ---------------------------------------------------------------------------
  // Arrays and pools
  // ---------------------------------------------------------------------------

  /** `read_array(reader, item, n)`: exactly `n` items, one after the other. */
  function ArrayN<T>(buf: seq<Byte>, pos: nat, n: nat, item: (seq<Byte>, nat) -> Result<Parsed<T>>)
    : (r: Result<Parsed<seq<T>>>)
    ensures r.Ok? ==> |r.value.value| == n
    decreases n
  {
    if n == 0 then Ok(Parsed([], pos))
    else
      var init :- ArrayN(buf, pos, n - 1, item);
      var last :- item(buf, init.next);
      Ok(Parsed(init.value + [last.value], last.next))
  }

  /** `read_array(reader, item)`: a u30 count, then that many items. */
  function Array<T>(buf: seq<Byte>, pos: nat, item: (seq<Byte>, nat) -> Result<Parsed<T>>)
    : Result<Parsed<seq<T>>>
  {
    var count :- U30(buf, pos);
    ArrayN(buf, count.next, count.value, item)
  }

  /** The number of entries `read_array_with_default` reads for a count `c`. */
  function PoolItems(c: nat): nat {
    if c == 0 then 0 else c - 1
  }

  /** `read_array_with_default(reader, item, default)`. */
  function Pool<T>(buf: seq<Byte>, pos: nat, item: (seq<Byte>, nat) -> Result<Parsed<T>>, default: T)
    : Result<Parsed<seq<T>>>
  {
    var count :- U30(buf, pos);
    var items :- ArrayN(buf, count.next, PoolItems(count.value), item);
    Ok(Parsed([default] + items.value, items.next))
  }

  /** Every entry of `xs` is present. */
  predicate AllPresent<T>(xs: seq<Option<T>>) {
    forall i :: 0 <= i < |xs| ==> xs[i].Some?
  }

  /** An item reader that only produces present entries. */
  ghost predicate ProducesSome<T>(item: (seq<Byte>, nat) -> Result<Parsed<Option<T>>>) {
    forall b, p :: item(b, p).Ok? ==> item(b, p).value.value.Some?
  }

  lemma {:induction false} ArrayPresent<T>(buf: seq<Byte>, pos: nat, n: nat,
                                           item: (seq<Byte>, nat) -> Result<Parsed<Option<T>>>)
    requires ProducesSome(item)
    ensures ArrayN(buf, pos, n, item).Ok? ==> AllPresent(ArrayN(buf, pos, n, item).value.value)
    decreases n
  {
    if n > 0 {
      ArrayPresent(buf, pos, n - 1, item);
    }
  }

  /** A pool of present entries holds its `None` default at index 0 and only there. */
  lemma PoolPresent<T>(buf: seq<Byte>, pos: nat, item: (seq<Byte>, nat) -> Result<Parsed<Option<T>>>)
    requires ProducesSome(item)
    ensures Pool(buf, pos, item, None).Ok? ==>
      var p := Pool(buf, pos, item, None).value.value;
      |p| >= 1 && p[0].None? && AllPresent(p[1..])
  {
    var count := U30(buf, pos);
    if count.Ok? {
      var n := PoolItems(count.value.value);
      ArrayPresent(buf, count.value.next, n, item);
      var p := Pool(buf, pos, item, None);
      if p.Ok? {
        assert p.value.value[1..] == ArrayN(buf, count.value.next, n, item).value.value;
      }
    }
  }

  /** `read_string` of avm2/abc/parser.py: a u30 length, then `read(length)`. */
  function AbcString(buf: seq<Byte>, pos: nat): Result<Parsed<seq<Byte>>> {
    var size :- U30(buf, pos);
    Ok(ReadBytes(buf, size.next, size.value))
  }

  // ---------------------------------------------------------------------------
  // Constant pool entries
  // ---------------------------------------------------------------------------

  /** `ASNamespace(reader)`: a kind byte, then the name index. */
  function NamespaceAt(buf: seq<Byte>, pos: nat): Result<Parsed<Namespace>> {
    var kind :- U8(buf, pos);
    if !IsNamespaceKind(kind.value) then Err(ValueError)
    else
      var name :- U30(buf, kind.next);
      Ok(Parsed(Namespace(kind.value, name.value), name.next))
  }

  /** `ASNamespaceSet(reader)`. */
  function NamespaceSetAt(buf: seq<Byte>, pos: nat): Result<Parsed<NamespaceSet>> {
    var namespaces :- Array(buf, pos, U30);
    Ok(Parsed(NamespaceSet(namespaces.value), namespaces.next))
  }

  /** `ASMultiname(reader)`: a kind byte, then the fields that kind carries. */
  function MultinameAt(buf: seq<Byte>, pos: nat): Result<Parsed<Multiname>> {
    var k :- U8(buf, pos);
    var kind := k.value;
    if !IsMultinameKind(kind) then Err(ValueError)
    else if kind == Q_NAME || kind == Q_NAME_A then
      var ns :- U30(buf, k.next);
      var name :- U30(buf, ns.next);
      Ok(Parsed(Multiname(kind, Some(ns.value), Some(name.value), None, None, None), name.next))
    else if kind == RTQ_NAME || kind == RTQ_NAME_A then
      var name :- U30(buf, k.next);
      Ok(Parsed(Multiname(kind, None, Some(name.value), None, None, None), name.next))
    else if kind == RTQ_NAME_L || kind == RTQ_NAME_LA then
      Ok(Parsed(Multiname(kind, None, None, None, None, None), k.next))
    else if kind == MULTINAME || kind == MULTINAME_A then
      var name :- U30(buf, k.next);
      var nsSet :- U30(buf, name.next);
      Ok(Parsed(Multiname(kind, None, Some(name.value), Some(nsSet.value), None, None), nsSet.next))
    else if kind == MULTINAME_L || kind == MULTINAME_LA then
      var nsSet :- U30(buf, k.next);
      Ok(Parsed(Multiname(kind, None, None, Some(nsSet.value), None, None), nsSet.next))
    else
      var q :- U30(buf, k.next);
      var types :- Array(buf, q.next, U30);
      Ok(Parsed(Multiname(kind, None, None, None, Some(q.value), Some(types.value)), types.next))
  }

  // The optional pools hold `None` at index 0 and `Some` entry elsewhere.

  function SomeString(buf: seq<Byte>, pos: nat): Result<Parsed<Option<seq<Byte>>>> {
    var s :- AbcString(buf, pos);
    Ok(Parsed(Some(s.value), s.next))
  }

  function SomeNamespace(buf: seq<Byte>, pos: nat): Result<Parsed<Option<Namespace>>> {
    var ns :- NamespaceAt(buf, pos);
    Ok(Parsed(Some(ns.value), ns.next))
  }

  function SomeNamespaceSet(buf: seq<Byte>, pos: nat): Result<Parsed<Option<NamespaceSet>>> {
    var nsSet :- NamespaceSetAt(buf, pos);
    Ok(Parsed(Some(nsSet.value), nsSet.next))
  }

  function SomeMultiname(buf: seq<Byte>, pos: nat): Result<Parsed<Option<Multiname>>> {
    var m :- MultinameAt(buf, pos);
    Ok(Parsed(Some(m.value), m.next))
  }

  /**
   * Entry 0 of every pool is its default, which is not read from the buffer;
   * the pools of strings, namespaces and multinames hold `None` there and
   * only there.
   */
  predicate PoolDefaults(pool: ConstantPool) {
    |pool.integers| >= 1 && pool.integers[0] == 0
    && |pool.unsignedIntegers| >= 1 && pool.unsignedIntegers[0] == 0
    && |pool.doubles| >= 1 && pool.doubles[0] == NaN
    && |pool.strings| >= 1 && pool.strings[0].None? && AllPresent(pool.strings[1..])
    && |pool.namespaces| >= 1 && pool.namespaces[0].None? && AllPresent(pool.namespaces[1..])
    && |pool.nsSets| >= 1 && pool.nsSets[0].None?
    && |pool.multinames| >= 1 && pool.multinames[0].None? && AllPresent(pool.multinames[1..])
  }

  /** `ASConstantPool(reader)`: the seven pools in their fixed order. */
  function ConstantPoolAt(buf: seq<Byte>, pos: nat): (r: Result<Parsed<ConstantPool>>)
    ensures r.Ok? ==> PoolDefaults(r.value.value)
  {
    var integers :- Pool(buf, pos, S32, 0);
    var unsigned :- Pool(buf, integers.next, U30, 0);
    var doubles :- Pool(buf, unsigned.next, D64, NaN);
    PoolPresent(buf, doubles.next, SomeString);
    var strings :- Pool(buf, doubles.next, SomeString, None);
    PoolPresent(buf, strings.next, SomeNamespace);
    var namespaces :- Pool(buf, strings.next, SomeNamespace, None);
    var nsSets :- Pool(buf, namespaces.next, SomeNamespaceSet, None);
    PoolPresent(buf, nsSets.next, SomeMultiname);
    var multinames :- Pool(buf, nsSets.next, SomeMultiname, None);
    Ok(Parsed(ConstantPool(integers.value, unsigned.value, doubles.value, strings.value,
                           namespaces.value, nsSets.value, multinames.value), multinames.next))
  }

  // ---------------------------------------------------------------------------
  // Methods and metadata
  // ---------------------------------------------------------------------------

  /** `ASOptionDetail(reader)`: the value index, then the constant kind byte. */
  function OptionDetailAt(buf: seq<Byte>, pos: nat): Result<Parsed<OptionDetail>> {
    var value :- U30(buf, pos);
    var kind :- U8(buf, value.next);
    if !IsConstantKind(kind.value) then Err(ValueError)
    else Ok(Parsed(OptionDetail(value.value, kind.value), kind.next))
  }

  /** The options of a method: read iff HAS_OPTIONAL is set. */
  function OptionsAt(buf: seq<Byte>, pos: nat, flags: Byte): Result<Parsed<Option<seq<OptionDetail>>>> {
    if HasFlag(flags, HAS_OPTIONAL) then
      var options :- Array(buf, pos, OptionDetailAt);
      Ok(Parsed(Some(options.value), options.next))
    else Ok(Parsed(None, pos))
  }

  /** The parameter names of a method: `paramCount` indices, read iff HAS_PARAM_NAMES is set. */
  function ParamNamesAt(buf: seq<Byte>, pos: nat, flags: Byte, paramCount: nat)
    : Result<Parsed<Option<seq<nat>>>>
  {
    if HasFlag(flags, HAS_PARAM_NAMES) then
      var names :- ArrayN(buf, pos, paramCount, U30);
      Ok(Parsed(Some(names.value), names.next))
    else Ok(Parsed(None, pos))
  }

  /** `ASMethod(reader)`. */
  function MethodAt(buf: seq<Byte>, pos: nat): Result<Parsed<Method>> {
    var paramCount :- U30(buf, pos);
    var returnType :- U30(buf, paramCount.next);
    var paramTypes :- ArrayN(buf, returnType.next, paramCount.value, U30);
    var name :- U30(buf, paramTypes.next);
    var flags :- U8(buf, name.next);
    var options :- OptionsAt(buf, flags.next, flags.value);
    var paramNames :- ParamNamesAt(buf, options.next, flags.value, paramCount.value);
    Ok(Parsed(Method(paramCount.value, returnType.value, paramTypes.value, name.value, flags.value,
                     options.value, paramNames.value), paramNames.next))
  }

  /** `ASItem(reader)`. */
  function ItemAt(buf: seq<Byte>, pos: nat): Result<Parsed<Item>> {
    var key :- U30(buf, pos);
    var value :- U30(buf, key.next);
    Ok(Parsed(Item(key.value, value.value), value.next))
  }

  /** `ASMetadata(reader)`. */
  function MetadataAt(buf: seq<Byte>, pos: nat): Result<Parsed<Metadata>> {
    var name :- U30(buf, pos);
    var items :- Array(buf, name.next, ItemAt);
    Ok(Parsed(Metadata(name.value, items.value), items.next))
  }

  // ---------------------------------------------------------------------------
  // Traits
  // ---------------------------------------------------------------------------

  /** `ASTraitSlot(reader)`: the kind byte of the value is read iff `vindex` is not 0. */
  function TraitSlotAt(buf: seq<Byte>, pos: nat): Result<Parsed<TraitData>> {
    var slotId :- U30(buf, pos);
    var typeName :- U30(buf, slotId.next);
    var vindex :- U30(buf, typeName.next);
    if vindex.value == 0 then
      Ok(Parsed(TraitSlot(slotId.value, typeName.value, 0, None), vindex.next))
    else
      var vkind :- U8(buf, vindex.next);
      if !IsConstantKind(vkind.value) then Err(ValueError)
      else Ok(Parsed(TraitSlot(slotId.value, typeName.value, vindex.value, Some(vkind.value)), vkind.next))
  }

  /** Two u30 fields: the payloads of class, function and method traits. */
  function PairAt(buf: seq<Byte>, pos: nat): Result<Parsed<(nat, nat)>> {
    var first :- U30(buf, pos);
    var second :- U30(buf, first.next);
    Ok(Parsed((first.value, second.value), second.next))
  }

  /** The payload a trait of kind `kind` carries. */
  function TraitDataAt(buf: seq<Byte>, pos: nat, kind: nat): Result<Parsed<TraitData>>
    requires IsTraitKind(kind)
  {
    if kind == TRAIT_SLOT || kind == TRAIT_CONST then TraitSlotAt(buf, pos)
    else
      var pair :- PairAt(buf, pos);
      var data :=
        if kind == TRAIT_CLASS then TraitClass(pair.value.0, pair.value.1)
        else if kind == TRAIT_FUNCTION then TraitFunction(pair.value.0, pair.value.1)
        else TraitMethod(pair.value.0, pair.value.1);
      Ok(Parsed(data, pair.next))
  }

  /** The metadata indices of a trait: read iff its METADATA attribute is set. */
  function TraitMetadataAt(buf: seq<Byte>, pos: nat, attributes: nat): Result<Parsed<Option<seq<nat>>>> {
    if HasFlag(attributes, ATTR_METADATA) then
      var indices :- Array(buf, pos, U30);
      Ok(Parsed(Some(indices.value), indices.next))
    else Ok(Parsed(None, pos))
  }

  /** `ASTrait(reader)`. */
  function TraitAt(buf: seq<Byte>, pos: nat): Result<Parsed<Trait>> {
    var name :- U30(buf, pos);
    var kindByte :- U8(buf, name.next);
    var kind := kindByte.value % 0x10;
    var attributes := kindByte.value / 0x10;
    if !IsTraitKind(kind) then Err(ValueError)
    else
      var data :- TraitDataAt(buf, kindByte.next, kind);
      var metadata :- TraitMetadataAt(buf, data.next, attributes);
      Ok(Parsed(Trait(name.value, kind, attributes, data.value, metadata.value), metadata.next))
  }

  // ---------------------------------------------------------------------------
  // Instances, classes, scripts, method bodies
  // ---------------------------------------------------------------------------

  /** The protected namespace of an instance: read iff PROTECTED_NS is set. */
  function ProtectedNamespaceAt(buf: seq<Byte>, pos: nat, flags: Byte): Result<Parsed<Option<nat>>> {
    if HasFlag(flags, CLASS_PROTECTED_NS) then
      var ns :- U30(buf, pos);
      Ok(Parsed(Some(ns.value), ns.next))
    else Ok(Parsed(None, pos))
  }

  /** `ASInstance(reader)`. */
  function InstanceAt(buf: seq<Byte>, pos: nat): Result<Parsed<Instance>> {
    var name :- U30(buf, pos);
    var superName :- U30(buf, name.next);
    var flags :- U8(buf, superName.next);
    var protectedNs :- ProtectedNamespaceAt(buf, flags.next, flags.value);
    var interfaces :- Array(buf, protectedNs.next, U30);
    var init :- U30(buf, interfaces.next);
    var traits :- Array(buf, init.next, TraitAt);
    Ok(Parsed(Instance(name.value, superName.value, flags.value, protectedNs.value, interfaces.value,
                       init.value, traits.value), traits.next))
  }

  /** `ASClass(reader)`. */
  function ClassAt(buf: seq<Byte>, pos: nat): Result<Parsed<Class>> {
    var init :- U30(buf, pos);
    var traits :- Array(buf, init.next, TraitAt);
    Ok(Parsed(Class(init.value, traits.value), traits.next))
  }

  /** `ASScript(reader)`. */
  function ScriptAt(buf: seq<Byte>, pos: nat): Result<Parsed<Script>> {
    var init :- U30(buf, pos);
    var traits :- Array(buf, init.next, TraitAt);
    Ok(Parsed(Script(init.value, traits.value), traits.next))
  }

  /** `ASException(reader)`: from, to, target, type, variable name. */
  function ExceptionAt(buf: seq<Byte>, pos: nat): Result<Parsed<ExceptionInfo>> {
    var from :- U30(buf, pos);
    var to :- U30(buf, from.next);
    var target :- U30(buf, to.next);
    var excType :- U30(buf, target.next);
    var varName :- U30(buf, excType.next);
    Ok(Parsed(ExceptionInfo(from.value, to.value, target.value, excType.value, varName.value), varName.next))
  }

  /** The five u30 header fields of a method body. */
  datatype BodyHeader = BodyHeader(methodIndex: nat, maxStack: nat, localCount: nat,
                                   initScopeDepth: nat, maxScopeDepth: nat)

  function BodyHeaderAt(buf: seq<Byte>, pos: nat): Result<Parsed<BodyHeader>> {
    var methodIndex :- U30(buf, pos);
    var maxStack :- U30(buf, methodIndex.next);
    var localCount :- U30(buf, maxStack.next);
    var initScope :- U30(buf, localCount.next);
    var maxScope :- U30(buf, initScope.next);
    Ok(Parsed(BodyHeader(methodIndex.value, maxStack.value, localCount.value, initScope.value, maxScope.value),
              maxScope.next))
  }

  /** `ASMethodBody(reader)`: the code is `read(code_length)`, so it may be cut short. */
  function MethodBodyAt(buf: seq<Byte>, pos: nat): Result<Parsed<MethodBody>> {
    var header :- BodyHeaderAt(buf, pos);
    var codeLength :- U30(buf, header.next);
    var code := ReadBytes(buf, codeLength.next, codeLength.value);
    var exceptions :- Array(buf, code.next, ExceptionAt);
    var traits :- Array(buf, exceptions.next, TraitAt);
    var h := header.value;
    Ok(Parsed(MethodBody(h.methodIndex, h.maxStack, h.localCount, h.initScopeDepth, h.maxScopeDepth,
                         code.value, exceptions.value, traits.value), traits.next))
  }

  // ---------------------------------------------------------------------------
  // The file
  // ---------------------------------------------------------------------------

  /** `ABCFile(reader)`: `instances` and `classes` share one count read between them. */
  function AbcFileAt(buf: seq<Byte>, pos: nat): (r: Result<Parsed<AbcFile>>)
    ensures r.Ok? ==> |r.value.value.instances| == |r.value.value.classes|
    ensures r.Ok? ==> PoolDefaults(r.value.value.constantPool)
  {
    var minor :- U16(buf, pos);
    var major :- U16(buf, minor.next);
    var pool :- ConstantPoolAt(buf, major.next);
    var methods :- Array(buf, pool.next, MethodAt);
    var metadata :- Array(buf, methods.next, MetadataAt);
    var classCount :- U30(buf, metadata.next);
    var instances :- ArrayN(buf, classCount.next, classCount.value, InstanceAt);
    var classes :- ArrayN(buf, instances.next, classCount.value, ClassAt);
    var scripts :- Array(buf, classes.next, ScriptAt);
    var bodies :- Array(buf, scripts.next, MethodBodyAt);
    Ok(Parsed(AbcFile(minor.value, major.value, pool.value, methods.value, metadata.value,
                      instances.value, classes.value, scripts.value, bodies.value), bodies.next))
  }
}
