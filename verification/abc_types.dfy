/**
 * The records of an ABC (ActionScript byte code) file, as avm2/abc/types.py
 * declares them, and the enumerations of avm2/abc/enums.py they refer to.
 *
 * Indices into the constant pool are plain naturals. A field the decoder only
 * reads under a kind or flag condition is an `Option`, `None` meaning that the
 * source leaves it at its class default `None`. Strings are kept as their
 * undecoded UTF-8 bytes.
 */
module AbcTypes {
  import opened Wrappers
  import opened Io

  // ---------------------------------------------------------------------------
  // Enumerations (values of the AVM2 Overview)
  // ---------------------------------------------------------------------------

  /** `NamespaceKind`: the values `NamespaceKind(byte)` accepts. */
  const NS_PRIVATE: Byte := 0x05
  const NS_NAMESPACE: Byte := 0x08
  const NS_PACKAGE: Byte := 0x16
  const NS_PACKAGE_INTERNAL: Byte := 0x17
  const NS_PROTECTED: Byte := 0x18
  const NS_EXPLICIT: Byte := 0x19
  const NS_STATIC_PROTECTED: Byte := 0x1A

  predicate IsNamespaceKind(b: Byte) {
    b in {NS_PRIVATE, NS_NAMESPACE, NS_PACKAGE, NS_PACKAGE_INTERNAL, NS_PROTECTED, NS_EXPLICIT,
          NS_STATIC_PROTECTED}
  }

  /** `MultinameKind`. */
  const Q_NAME: Byte := 0x07
  const Q_NAME_A: Byte := 0x0D
  const RTQ_NAME: Byte := 0x0F
  const RTQ_NAME_A: Byte := 0x10
  const RTQ_NAME_L: Byte := 0x11
  const RTQ_NAME_LA: Byte := 0x12
  const MULTINAME: Byte := 0x09
  const MULTINAME_A: Byte := 0x0E
  const MULTINAME_L: Byte := 0x1B
  const MULTINAME_LA: Byte := 0x1C
  const TYPE_NAME: Byte := 0x1D

  predicate IsMultinameKind(b: Byte) {
    b in {Q_NAME, Q_NAME_A, RTQ_NAME, RTQ_NAME_A, RTQ_NAME_L, RTQ_NAME_LA, MULTINAME, MULTINAME_A,
          MULTINAME_L, MULTINAME_LA, TYPE_NAME}
  }

  /** `ConstantKind`. */
  predicate IsConstantKind(b: Byte) {
    b in {0x00, 0x01, 0x03, 0x04, 0x05, 0x06, 0x08, 0x0A, 0x0B, 0x0C, 0x16, 0x17, 0x18, 0x19, 0x1A}
  }

  /** `TraitKind`: the low nibble of a trait's kind byte. */
  const TRAIT_SLOT: nat := 0
  const TRAIT_METHOD: nat := 1
  const TRAIT_GETTER: nat := 2
  const TRAIT_SETTER: nat := 3
  const TRAIT_CLASS: nat := 4
  const TRAIT_FUNCTION: nat := 5
  const TRAIT_CONST: nat := 6

  predicate IsTraitKind(k: nat) {
    k <= TRAIT_CONST
  }

  /** `MethodFlags`, `ClassFlags` and `TraitAttributes` are flag sets: every value is accepted. */
  const NEED_ARGUMENTS: nat := 0x01
  const NEED_ACTIVATION: nat := 0x02
  const NEED_REST: nat := 0x04
  const HAS_OPTIONAL: nat := 0x08
  const SET_DXNS: nat := 0x40
  const HAS_PARAM_NAMES: nat := 0x80

  const CLASS_SEALED: nat := 0x01
  const CLASS_FINAL: nat := 0x02
  const CLASS_INTERFACE: nat := 0x04
  const CLASS_PROTECTED_NS: nat := 0x08

  const ATTR_FINAL: nat := 0x1
  const ATTR_OVERRIDE: nat := 0x2
  const ATTR_METADATA: nat := 0x4

  /** `flag in flags` for a single-bit `flag` (a power of two). */
  predicate HasFlag(flags: nat, flag: nat)
    requires flag > 0
  {
    (flags / flag) % 2 == 1
  }

  // ---------------------------------------------------------------------------
  // Records
  // ---------------------------------------------------------------------------

  /** `ASNamespace`. */
  datatype Namespace = Namespace(kind: Byte, nameIndex: nat)

  /** `ASNamespaceSet`. */
  datatype NamespaceSet = NamespaceSet(namespaces: seq<nat>)

  /** `ASMultiname`: which optional fields are present depends on `kind`. */
  datatype Multiname = Multiname(
    kind: Byte,
    namespaceIndex: Option<nat>,
    nameIndex: Option<nat>,
    namespaceSetIndex: Option<nat>,
    qNameIndex: Option<nat>,
    typeIndices: Option<seq<nat>>)

  /** `ASOptionDetail`. */
  datatype OptionDetail = OptionDetail(value: nat, kind: Byte)

  /** `ASMethod`. */
  datatype Method = Method(
    paramCount: nat,
    returnTypeIndex: nat,
    paramTypeIndices: seq<nat>,
    nameIndex: nat,
    flags: Byte,
    options: Option<seq<OptionDetail>>,
    paramNameIndices: Option<seq<nat>>)

  /** `ASItem`. */
  datatype Item = Item(keyIndex: nat, valueIndex: nat)

  /** `ASMetadata`. */
  datatype Metadata = Metadata(nameIndex: nat, items: seq<Item>)

  /** The payload of a trait: `ASTraitSlot`, `ASTraitClass`, `ASTraitFunction`, `ASTraitMethod`. */
  datatype TraitData =
    | TraitSlot(slotId: nat, typeNameIndex: nat, vindex: nat, vkind: Option<Byte>)
    | TraitClass(slotId: nat, classIndex: nat)
    | TraitFunction(slotId: nat, functionIndex: nat)
    | TraitMethod(dispositionId: nat, methodIndex: nat)

  /** `ASTrait`: `kind` is the low nibble of the kind byte and `attributes` the high one. */
  datatype Trait = Trait(
    nameIndex: nat,
    kind: nat,
    attributes: nat,
    data: TraitData,
    metadata: Option<seq<nat>>)

  /** `ASInstance`. */
  datatype Instance = Instance(
    nameIndex: nat,
    superNameIndex: nat,
    flags: Byte,
    protectedNamespaceIndex: Option<nat>,
    interfaceIndices: seq<nat>,
    initIndex: nat,
    traits: seq<Trait>)

  /** `ASClass`. */
  datatype Class = Class(initIndex: nat, traits: seq<Trait>)

  /** `ASScript`. */
  datatype Script = Script(initIndex: nat, traits: seq<Trait>)

  /** `ASException`. */
  datatype ExceptionInfo = ExceptionInfo(from: nat, to: nat, target: nat, excTypeIndex: nat, varNameIndex: nat)

  /** `ASMethodBody`. */
  datatype MethodBody = MethodBody(
    methodIndex: nat,
    maxStack: nat,
    localCount: nat,
    initScopeDepth: nat,
    maxScopeDepth: nat,
    code: seq<Byte>,
    exceptions: seq<ExceptionInfo>,
    traits: seq<Trait>)

  /**
   * `ASConstantPool`: seven pools, each with a default entry at index 0 that
   * is not read from the file (`None` for the optional pools).
   */
  datatype ConstantPool = ConstantPool(
    integers: seq<int>,
    unsignedIntegers: seq<nat>,
    doubles: seq<Double>,
    strings: seq<Option<seq<Byte>>>,
    namespaces: seq<Option<Namespace>>,
    nsSets: seq<Option<NamespaceSet>>,
    multinames: seq<Option<Multiname>>)

  /** `ABCFile`. */
  datatype AbcFile = AbcFile(
    minorVersion: nat,
    majorVersion: nat,
    constantPool: ConstantPool,
    methods: seq<Method>,
    metadata: seq<Metadata>,
    instances: seq<Instance>,
    classes: seq<Class>,
    scripts: seq<Script>,
    methodBodies: seq<MethodBody>)
}
