/**
 * The constructors of avm2/abc/types.py as imperative decoders: each method
 * advances the shared `MemoryViewReader` field by field, as the Python
 * constructor does, and is proved to agree with the reference decoder of
 * module `AbcDecode` (same value, same final position, same error).
 */
module AbcReader {
  import opened Wrappers
  import opened Io
  import opened AbcTypes
  import opened AbcDecode

  /** Once an item fails, every longer array read fails with the same error. */
  lemma {:induction false} ArrayNFails<T>(buf: seq<Byte>, pos: nat, i: nat, n: nat,
                                          item: (seq<Byte>, nat) -> Result<Parsed<T>>)
    requires i <= n && ArrayN(buf, pos, i, item).Err?
    ensures ArrayN(buf, pos, n, item) == ArrayN(buf, pos, i, item)
    decreases n
  {
    if i < n {
      ArrayNFails(buf, pos, i, n - 1, item);
    }
  }

  // ---------------------------------------------------------------------------
  // Counted item loops (the loop inside `read_array`)
  // ---------------------------------------------------------------------------

  /** `read_array(reader, ...)` with a known count, for `U30` items. */
  method ReadU30Array(r: MemoryViewReader, n: nat) returns (res: Result<seq<nat>>)
    modifies r
    ensures Agrees(res, r.position, ArrayN(r.buffer, old(r.position), n, U30))
  {
    ghost var start := r.position;
    var items: seq<nat> := [];
    var i := 0;
    while i < n
      invariant i <= n
      invariant ArrayN(r.buffer, start, i, U30) == Ok(Parsed(items, r.position))
    {
      var item := r.ReadU30();
      if item.Err? {
        ArrayNFails(r.buffer, start, i + 1, n, U30);
        return Err(item.error);
      }
      items := items + [item.value];
      i := i + 1;
    }
    return Ok(items);
  }

  /** `read_array(reader, ...)` with a known count, for `S32` items. */
  method ReadS32Array(r: MemoryViewReader, n: nat) returns (res: Result<seq<int>>)
    modifies r
    ensures Agrees(res, r.position, ArrayN(r.buffer, old(r.position), n, S32))
  {
    ghost var start := r.position;
    var items: seq<int> := [];
    var i := 0;
    while i < n
      invariant i <= n
      invariant ArrayN(r.buffer, start, i, S32) == Ok(Parsed(items, r.position))
    {
      var item := r.ReadS32();
      if item.Err? {
        ArrayNFails(r.buffer, start, i + 1, n, S32);
        return Err(item.error);
      }
      items := items + [item.value];
      i := i + 1;
    }
    return Ok(items);
  }

  /** `read_array(reader, ...)` with a known count, for `D64` items. */
  method ReadDoubleArray(r: MemoryViewReader, n: nat) returns (res: Result<seq<Double>>)
    modifies r
    ensures Agrees(res, r.position, ArrayN(r.buffer, old(r.position), n, D64))
  {
    ghost var start := r.position;
    var items: seq<Double> := [];
    var i := 0;
    while i < n
      invariant i <= n
      invariant ArrayN(r.buffer, start, i, D64) == Ok(Parsed(items, r.position))
    {
      var item := r.ReadD64();
      if item.Err? {
        ArrayNFails(r.buffer, start, i + 1, n, D64);
        return Err(item.error);
      }
      items := items + [item.value];
      i := i + 1;
    }
    return Ok(items);
  }

  /** `read_array(reader, ...)` with a known count, for `SomeString` items. */
  method ReadStringArray(r: MemoryViewReader, n: nat) returns (res: Result<seq<Option<seq<Byte>>>>)
    modifies r
    ensures Agrees(res, r.position, ArrayN(r.buffer, old(r.position), n, SomeString))
  {
    ghost var start := r.position;
    var items: seq<Option<seq<Byte>>> := [];
    var i := 0;
    while i < n
      invariant i <= n
      invariant ArrayN(r.buffer, start, i, SomeString) == Ok(Parsed(items, r.position))
    {
      var item := ReadSomeString(r);
      if item.Err? {
        ArrayNFails(r.buffer, start, i + 1, n, SomeString);
        return Err(item.error);
      }
      items := items + [item.value];
      i := i + 1;
    }
    return Ok(items);
  }

  /** `read_array(reader, ...)` with a known count, for `SomeNamespace` items. */
  method ReadNamespaceArray(r: MemoryViewReader, n: nat) returns (res: Result<seq<Option<Namespace>>>)
    modifies r
    ensures Agrees(res, r.position, ArrayN(r.buffer, old(r.position), n, SomeNamespace))
  {
    ghost var start := r.position;
    var items: seq<Option<Namespace>> := [];
    var i := 0;
    while i < n
      invariant i <= n
      invariant ArrayN(r.buffer, start, i, SomeNamespace) == Ok(Parsed(items, r.position))
    {
      var item := ReadSomeNamespace(r);
      if item.Err? {
        ArrayNFails(r.buffer, start, i + 1, n, SomeNamespace);
        return Err(item.error);
      }
      items := items + [item.value];
      i := i + 1;
    }
    return Ok(items);
  }

  /** `read_array(reader, ...)` with a known count, for `SomeNamespaceSet` items. */
  method ReadNamespaceSetArray(r: MemoryViewReader, n: nat) returns (res: Result<seq<Option<NamespaceSet>>>)
    modifies r
    ensures Agrees(res, r.position, ArrayN(r.buffer, old(r.position), n, SomeNamespaceSet))
  {
    ghost var start := r.position;
    var items: seq<Option<NamespaceSet>> := [];
    var i := 0;
    while i < n
      invariant i <= n
      invariant ArrayN(r.buffer, start, i, SomeNamespaceSet) == Ok(Parsed(items, r.position))
    {
      var item := ReadSomeNamespaceSet(r);
      if item.Err? {
        ArrayNFails(r.buffer, start, i + 1, n, SomeNamespaceSet);
        return Err(item.error);
      }
      items := items + [item.value];
      i := i + 1;
    }
    return Ok(items);
  }

  /** `read_array(reader, ...)` with a known count, for `SomeMultiname` items. */
  method ReadMultinameArray(r: MemoryViewReader, n: nat) returns (res: Result<seq<Option<Multiname>>>)
    modifies r
    ensures Agrees(res, r.position, ArrayN(r.buffer, old(r.position), n, SomeMultiname))
  {
    ghost var start := r.position;
    var items: seq<Option<Multiname>> := [];
    var i := 0;
    while i < n
      invariant i <= n
      invariant ArrayN(r.buffer, start, i, SomeMultiname) == Ok(Parsed(items, r.position))
    {
      var item := ReadSomeMultiname(r);
      if item.Err? {
        ArrayNFails(r.buffer, start, i + 1, n, SomeMultiname);
        return Err(item.error);
      }
      items := items + [item.value];
      i := i + 1;
    }
    return Ok(items);
  }

  /** `read_array(reader, ...)` with a known count, for `OptionDetailAt` items. */
  method ReadOptionDetailArray(r: MemoryViewReader, n: nat) returns (res: Result<seq<OptionDetail>>)
    modifies r
    ensures Agrees(res, r.position, ArrayN(r.buffer, old(r.position), n, OptionDetailAt))
  {
    ghost var start := r.position;
    var items: seq<OptionDetail> := [];
    var i := 0;
    while i < n
      invariant i <= n
      invariant ArrayN(r.buffer, start, i, OptionDetailAt) == Ok(Parsed(items, r.position))
    {
      var item := ReadOptionDetail(r);
      if item.Err? {
        ArrayNFails(r.buffer, start, i + 1, n, OptionDetailAt);
        return Err(item.error);
      }
      items := items + [item.value];
      i := i + 1;
    }
    return Ok(items);
  }

  /** `read_array(reader, ...)` with a known count, for `MethodAt` items. */
  method ReadMethodArray(r: MemoryViewReader, n: nat) returns (res: Result<seq<Method>>)
    modifies r
    ensures Agrees(res, r.position, ArrayN(r.buffer, old(r.position), n, MethodAt))
  {
    ghost var start := r.position;
    var items: seq<Method> := [];
    var i := 0;
    while i < n
      invariant i <= n
      invariant ArrayN(r.buffer, start, i, MethodAt) == Ok(Parsed(items, r.position))
    {
      var item := ReadMethod(r);
      if item.Err? {
        ArrayNFails(r.buffer, start, i + 1, n, MethodAt);
        return Err(item.error);
      }
      items := items + [item.value];
      i := i + 1;
    }
    return Ok(items);
  }

  /** `read_array(reader, ...)` with a known count, for `ItemAt` items. */
  method ReadItemArray(r: MemoryViewReader, n: nat) returns (res: Result<seq<Item>>)
    modifies r
    ensures Agrees(res, r.position, ArrayN(r.buffer, old(r.position), n, ItemAt))
  {
    ghost var start := r.position;
    var items: seq<Item> := [];
    var i := 0;
    while i < n
      invariant i <= n
      invariant ArrayN(r.buffer, start, i, ItemAt) == Ok(Parsed(items, r.position))
    {
      var item := ReadItem(r);
      if item.Err? {
        ArrayNFails(r.buffer, start, i + 1, n, ItemAt);
        return Err(item.error);
      }
      items := items + [item.value];
      i := i + 1;
    }
    return Ok(items);
  }

  /** `read_array(reader, ...)` with a known count, for `MetadataAt` items. */
  method ReadMetadataArray(r: MemoryViewReader, n: nat) returns (res: Result<seq<Metadata>>)
    modifies r
    ensures Agrees(res, r.position, ArrayN(r.buffer, old(r.position), n, MetadataAt))
  {
    ghost var start := r.position;
    var items: seq<Metadata> := [];
    var i := 0;
    while i < n
      invariant i <= n
      invariant ArrayN(r.buffer, start, i, MetadataAt) == Ok(Parsed(items, r.position))
    {
      var item := ReadMetadata(r);
      if item.Err? {
        ArrayNFails(r.buffer, start, i + 1, n, MetadataAt);
        return Err(item.error);
      }
      items := items + [item.value];
      i := i + 1;
    }
    return Ok(items);
  }

  /** `read_array(reader, ...)` with a known count, for `TraitAt` items. */
  method ReadTraitArray(r: MemoryViewReader, n: nat) returns (res: Result<seq<Trait>>)
    modifies r
    ensures Agrees(res, r.position, ArrayN(r.buffer, old(r.position), n, TraitAt))
  {
    ghost var start := r.position;
    var items: seq<Trait> := [];
    var i := 0;
    while i < n
      invariant i <= n
      invariant ArrayN(r.buffer, start, i, TraitAt) == Ok(Parsed(items, r.position))
    {
      var item := ReadTrait(r);
      if item.Err? {
        ArrayNFails(r.buffer, start, i + 1, n, TraitAt);
        return Err(item.error);
      }
      items := items + [item.value];
      i := i + 1;
    }
    return Ok(items);
  }

  /** `read_array(reader, ...)` with a known count, for `InstanceAt` items. */
  method ReadInstanceArray(r: MemoryViewReader, n: nat) returns (res: Result<seq<Instance>>)
    modifies r
    ensures Agrees(res, r.position, ArrayN(r.buffer, old(r.position), n, InstanceAt))
  {
    ghost var start := r.position;
    var items: seq<Instance> := [];
    var i := 0;
    while i < n
      invariant i <= n
      invariant ArrayN(r.buffer, start, i, InstanceAt) == Ok(Parsed(items, r.position))
    {
      var item := ReadInstance(r);
      if item.Err? {
        ArrayNFails(r.buffer, start, i + 1, n, InstanceAt);
        return Err(item.error);
      }
      items := items + [item.value];
      i := i + 1;
    }
    return Ok(items);
  }

  /** `read_array(reader, ...)` with a known count, for `ClassAt` items. */
  method ReadClassArray(r: MemoryViewReader, n: nat) returns (res: Result<seq<Class>>)
    modifies r
    ensures Agrees(res, r.position, ArrayN(r.buffer, old(r.position), n, ClassAt))
  {
    ghost var start := r.position;
    var items: seq<Class> := [];
    var i := 0;
    while i < n
      invariant i <= n
      invariant ArrayN(r.buffer, start, i, ClassAt) == Ok(Parsed(items, r.position))
    {
      var item := ReadClass(r);
      if item.Err? {
        ArrayNFails(r.buffer, start, i + 1, n, ClassAt);
        return Err(item.error);
      }
      items := items + [item.value];
      i := i + 1;
    }
    return Ok(items);
  }

  /** `read_array(reader, ...)` with a known count, for `ScriptAt` items. */
  method ReadScriptArray(r: MemoryViewReader, n: nat) returns (res: Result<seq<Script>>)
    modifies r
    ensures Agrees(res, r.position, ArrayN(r.buffer, old(r.position), n, ScriptAt))
  {
    ghost var start := r.position;
    var items: seq<Script> := [];
    var i := 0;
    while i < n
      invariant i <= n
      invariant ArrayN(r.buffer, start, i, ScriptAt) == Ok(Parsed(items, r.position))
    {
      var item := ReadScript(r);
      if item.Err? {
        ArrayNFails(r.buffer, start, i + 1, n, ScriptAt);
        return Err(item.error);
      }
      items := items + [item.value];
      i := i + 1;
    }
    return Ok(items);
  }

  /** `read_array(reader, ...)` with a known count, for `ExceptionAt` items. */
  method ReadExceptionArray(r: MemoryViewReader, n: nat) returns (res: Result<seq<ExceptionInfo>>)
    modifies r
    ensures Agrees(res, r.position, ArrayN(r.buffer, old(r.position), n, ExceptionAt))
  {
    ghost var start := r.position;
    var items: seq<ExceptionInfo> := [];
    var i := 0;
    while i < n
      invariant i <= n
      invariant ArrayN(r.buffer, start, i, ExceptionAt) == Ok(Parsed(items, r.position))
    {
      var item := ReadException(r);
      if item.Err? {
        ArrayNFails(r.buffer, start, i + 1, n, ExceptionAt);
        return Err(item.error);
      }
      items := items + [item.value];
      i := i + 1;
    }
    return Ok(items);
  }

  /** `read_array(reader, ...)` with a known count, for `MethodBodyAt` items. */
  method ReadMethodBodyArray(r: MemoryViewReader, n: nat) returns (res: Result<seq<MethodBody>>)
    modifies r
    ensures Agrees(res, r.position, ArrayN(r.buffer, old(r.position), n, MethodBodyAt))
  {
    ghost var start := r.position;
    var items: seq<MethodBody> := [];
    var i := 0;
    while i < n
      invariant i <= n
      invariant ArrayN(r.buffer, start, i, MethodBodyAt) == Ok(Parsed(items, r.position))
    {
      var item := ReadMethodBody(r);
      if item.Err? {
        ArrayNFails(r.buffer, start, i + 1, n, MethodBodyAt);
        return Err(item.error);
      }
      items := items + [item.value];
      i := i + 1;
    }
    return Ok(items);
  }

  // ---------------------------------------------------------------------------
  // Constant pool
  // ---------------------------------------------------------------------------

  /** `read_string` of avm2/abc/parser.py. */
  method ReadAbcString(r: MemoryViewReader) returns (res: Result<seq<Byte>>)
    modifies r
    ensures Agrees(res, r.position, AbcString(r.buffer, old(r.position)))
  {
    var size :- r.ReadU30();
    var bytes := r.Read(size);
    return Ok(bytes);
  }

  method ReadSomeString(r: MemoryViewReader) returns (res: Result<Option<seq<Byte>>>)
    modifies r
    ensures Agrees(res, r.position, SomeString(r.buffer, old(r.position)))
  {
    var s :- ReadAbcString(r);
    return Ok(Some(s));
  }

  /** `ASNamespace(reader)`. */
  method ReadNamespace(r: MemoryViewReader) returns (res: Result<Namespace>)
    modifies r
    ensures Agrees(res, r.position, NamespaceAt(r.buffer, old(r.position)))
  {
    var kind :- r.ReadU8();
    if !IsNamespaceKind(kind) {
      return Err(ValueError);
    }
    var name :- r.ReadU30();
    return Ok(Namespace(kind, name));
  }

  method ReadSomeNamespace(r: MemoryViewReader) returns (res: Result<Option<Namespace>>)
    modifies r
    ensures Agrees(res, r.position, SomeNamespace(r.buffer, old(r.position)))
  {
    var ns :- ReadNamespace(r);
    return Ok(Some(ns));
  }

  /** `read_array(reader, MemoryViewReader.read_int)`: a u30 count, then that many u30 values. */
  method ReadU30List(r: MemoryViewReader) returns (res: Result<seq<nat>>)
    modifies r
    ensures Agrees(res, r.position, Array(r.buffer, old(r.position), U30))
  {
    var count :- r.ReadU30();
    res := ReadU30Array(r, count);
  }

  /** `ASNamespaceSet(reader)`. */
  method ReadNamespaceSet(r: MemoryViewReader) returns (res: Result<NamespaceSet>)
    modifies r
    ensures Agrees(res, r.position, NamespaceSetAt(r.buffer, old(r.position)))
  {
    var namespaces :- ReadU30List(r);
    return Ok(NamespaceSet(namespaces));
  }

  method ReadSomeNamespaceSet(r: MemoryViewReader) returns (res: Result<Option<NamespaceSet>>)
    modifies r
    ensures Agrees(res, r.position, SomeNamespaceSet(r.buffer, old(r.position)))
  {
    var nsSet :- ReadNamespaceSet(r);
    return Ok(Some(nsSet));
  }

  /** `ASMultiname(reader)`. */
  method ReadMultiname(r: MemoryViewReader) returns (res: Result<Multiname>)
    modifies r
    ensures Agrees(res, r.position, MultinameAt(r.buffer, old(r.position)))
  {
    var kind :- r.ReadU8();
    if !IsMultinameKind(kind) {
      return Err(ValueError);
    }
    if kind == Q_NAME || kind == Q_NAME_A {
      var ns :- r.ReadU30();
      var name :- r.ReadU30();
      return Ok(Multiname(kind, Some(ns), Some(name), None, None, None));
    } else if kind == RTQ_NAME || kind == RTQ_NAME_A {
      var name :- r.ReadU30();
      return Ok(Multiname(kind, None, Some(name), None, None, None));
    } else if kind == RTQ_NAME_L || kind == RTQ_NAME_LA {
      return Ok(Multiname(kind, None, None, None, None, None));
    } else if kind == MULTINAME || kind == MULTINAME_A {
      var name :- r.ReadU30();
      var nsSet :- r.ReadU30();
      return Ok(Multiname(kind, None, Some(name), Some(nsSet), None, None));
    } else if kind == MULTINAME_L || kind == MULTINAME_LA {
      var nsSet :- r.ReadU30();
      return Ok(Multiname(kind, None, None, Some(nsSet), None, None));
    } else {
      var q :- r.ReadU30();
      var types :- ReadU30List(r);
      return Ok(Multiname(kind, None, None, None, Some(q), Some(types)));
    }
  }

  method ReadSomeMultiname(r: MemoryViewReader) returns (res: Result<Option<Multiname>>)
    modifies r
    ensures Agrees(res, r.position, SomeMultiname(r.buffer, old(r.position)))
  {
    var m :- ReadMultiname(r);
    return Ok(Some(m));
  }

  /** `ASConstantPool(reader)`: seven `read_array_with_default` calls. */
  method ReadConstantPool(r: MemoryViewReader) returns (res: Result<ConstantPool>)
    modifies r
    ensures Agrees(res, r.position, ConstantPoolAt(r.buffer, old(r.position)))
  {
    var c0 :- r.ReadU30();
    var integers :- ReadS32Array(r, PoolItems(c0));
    var c1 :- r.ReadU30();
    var unsigned :- ReadU30Array(r, PoolItems(c1));
    var c2 :- r.ReadU30();
    var doubles :- ReadDoubleArray(r, PoolItems(c2));
    var c3 :- r.ReadU30();
    var strings :- ReadStringArray(r, PoolItems(c3));
    var c4 :- r.ReadU30();
    var namespaces :- ReadNamespaceArray(r, PoolItems(c4));
    var c5 :- r.ReadU30();
    var nsSets :- ReadNamespaceSetArray(r, PoolItems(c5));
    var c6 :- r.ReadU30();
    var multinames :- ReadMultinameArray(r, PoolItems(c6));
    return Ok(ConstantPool([0] + integers, [0] + unsigned, [NaN] + doubles, [None] + strings,
                           [None] + namespaces, [None] + nsSets, [None] + multinames));
  }

  // ---------------------------------------------------------------------------
  // Methods and metadata
  // ---------------------------------------------------------------------------

  /** `ASOptionDetail(reader)`. */
  method ReadOptionDetail(r: MemoryViewReader) returns (res: Result<OptionDetail>)
    modifies r
    ensures Agrees(res, r.position, OptionDetailAt(r.buffer, old(r.position)))
  {
    var value :- r.ReadU30();
    var kind :- r.ReadU8();
    if !IsConstantKind(kind) {
      return Err(ValueError);
    }
    return Ok(OptionDetail(value, kind));
  }

  /** `ASMethod(reader)`. */
  method ReadMethod(r: MemoryViewReader) returns (res: Result<Method>)
    modifies r
    ensures Agrees(res, r.position, MethodAt(r.buffer, old(r.position)))
  {
    var paramCount :- r.ReadU30();
    var returnType :- r.ReadU30();
    var paramTypes :- ReadU30Array(r, paramCount);
    var name :- r.ReadU30();
    var flags :- r.ReadU8();
    var options: Option<seq<OptionDetail>> := None;
    if HasFlag(flags, HAS_OPTIONAL) {
      var count :- r.ReadU30();
      var details :- ReadOptionDetailArray(r, count);
      options := Some(details);
    }
    var paramNames: Option<seq<nat>> := None;
    if HasFlag(flags, HAS_PARAM_NAMES) {
      var names :- ReadU30Array(r, paramCount);
      paramNames := Some(names);
    }
    return Ok(Method(paramCount, returnType, paramTypes, name, flags, options, paramNames));
  }

  /** `ASItem(reader)`. */
  method ReadItem(r: MemoryViewReader) returns (res: Result<Item>)
    modifies r
    ensures Agrees(res, r.position, ItemAt(r.buffer, old(r.position)))
  {
    var key :- r.ReadU30();
    var value :- r.ReadU30();
    return Ok(Item(key, value));
  }

  /** `ASMetadata(reader)`. */
  method ReadMetadata(r: MemoryViewReader) returns (res: Result<Metadata>)
    modifies r
    ensures Agrees(res, r.position, MetadataAt(r.buffer, old(r.position)))
  {
    var name :- r.ReadU30();
    var count :- r.ReadU30();
    var items :- ReadItemArray(r, count);
    return Ok(Metadata(name, items));
  }

  // ---------------------------------------------------------------------------
  // Traits
  // ---------------------------------------------------------------------------

  /** `ASTraitSlot(reader)`. */
  method ReadTraitSlot(r: MemoryViewReader) returns (res: Result<TraitData>)
    modifies r
    ensures Agrees(res, r.position, TraitSlotAt(r.buffer, old(r.position)))
  {
    var slotId :- r.ReadU30();
    var typeName :- r.ReadU30();
    var vindex :- r.ReadU30();
    if vindex == 0 {
      return Ok(TraitSlot(slotId, typeName, 0, None));
    }
    var vkind :- r.ReadU8();
    if !IsConstantKind(vkind) {
      return Err(ValueError);
    }
    return Ok(TraitSlot(slotId, typeName, vindex, Some(vkind)));
  }

  /** `ASTraitClass`, `ASTraitFunction`, `ASTraitMethod`: two u30 fields. */
  method ReadPair(r: MemoryViewReader) returns (res: Result<(nat, nat)>)
    modifies r
    ensures Agrees(res, r.position, PairAt(r.buffer, old(r.position)))
  {
    var first :- r.ReadU30();
    var second :- r.ReadU30();
    return Ok((first, second));
  }

  /** `ASTrait(reader)`. */
  method ReadTrait(r: MemoryViewReader) returns (res: Result<Trait>)
    modifies r
    ensures Agrees(res, r.position, TraitAt(r.buffer, old(r.position)))
  {
    var name :- r.ReadU30();
    var kindByte :- r.ReadU8();
    var kind := kindByte % 0x10;
    var attributes := kindByte / 0x10;
    if !IsTraitKind(kind) {
      return Err(ValueError);
    }
    var data: TraitData;
    if kind == TRAIT_SLOT || kind == TRAIT_CONST {
      data :- ReadTraitSlot(r);
    } else {
      var pair :- ReadPair(r);
      if kind == TRAIT_CLASS {
        data := TraitClass(pair.0, pair.1);
      } else if kind == TRAIT_FUNCTION {
        data := TraitFunction(pair.0, pair.1);
      } else {
        data := TraitMethod(pair.0, pair.1);
      }
    }
    var metadata: Option<seq<nat>> := None;
    if HasFlag(attributes, ATTR_METADATA) {
      var indices :- ReadU30List(r);
      metadata := Some(indices);
    }
    return Ok(Trait(name, kind, attributes, data, metadata));
  }

  /** `read_array(reader, ASTrait)`. */
  method ReadTraitList(r: MemoryViewReader) returns (res: Result<seq<Trait>>)
    modifies r
    ensures Agrees(res, r.position, Array(r.buffer, old(r.position), TraitAt))
  {
    var count :- r.ReadU30();
    res := ReadTraitArray(r, count);
  }

  // ---------------------------------------------------------------------------
  // Instances, classes, scripts, method bodies
  // ---------------------------------------------------------------------------

  /** `ASInstance(reader)`. */
  method ReadInstance(r: MemoryViewReader) returns (res: Result<Instance>)
    modifies r
    ensures Agrees(res, r.position, InstanceAt(r.buffer, old(r.position)))
  {
    var name :- r.ReadU30();
    var superName :- r.ReadU30();
    var flags :- r.ReadU8();
    var protectedNs: Option<nat> := None;
    if HasFlag(flags, CLASS_PROTECTED_NS) {
      var ns :- r.ReadU30();
      protectedNs := Some(ns);
    }
    var interfaces :- ReadU30List(r);
    var init :- r.ReadU30();
    var traits :- ReadTraitList(r);
    return Ok(Instance(name, superName, flags, protectedNs, interfaces, init, traits));
  }

  /** `ASClass(reader)`. */
  method ReadClass(r: MemoryViewReader) returns (res: Result<Class>)
    modifies r
    ensures Agrees(res, r.position, ClassAt(r.buffer, old(r.position)))
  {
    var init :- r.ReadU30();
    var traits :- ReadTraitList(r);
    return Ok(Class(init, traits));
  }

  /** `ASScript(reader)`. */
  method ReadScript(r: MemoryViewReader) returns (res: Result<Script>)
    modifies r
    ensures Agrees(res, r.position, ScriptAt(r.buffer, old(r.position)))
  {
    var init :- r.ReadU30();
    var traits :- ReadTraitList(r);
    return Ok(Script(init, traits));
  }

  /** `ASException(reader)`. */
  method ReadException(r: MemoryViewReader) returns (res: Result<ExceptionInfo>)
    modifies r
    ensures Agrees(res, r.position, ExceptionAt(r.buffer, old(r.position)))
  {
    var from :- r.ReadU30();
    var to :- r.ReadU30();
    var target :- r.ReadU30();
    var excType :- r.ReadU30();
    var varName :- r.ReadU30();
    return Ok(ExceptionInfo(from, to, target, excType, varName));
  }

  /** The five u30 header fields of `ASMethodBody`. */
  method ReadBodyHeader(r: MemoryViewReader) returns (res: Result<BodyHeader>)
    modifies r
    ensures Agrees(res, r.position, BodyHeaderAt(r.buffer, old(r.position)))
  {
    var methodIndex :- r.ReadU30();
    var maxStack :- r.ReadU30();
    var localCount :- r.ReadU30();
    var initScope :- r.ReadU30();
    var maxScope :- r.ReadU30();
    return Ok(BodyHeader(methodIndex, maxStack, localCount, initScope, maxScope));
  }

  /** `ASMethodBody(reader)`. */
  method ReadMethodBody(r: MemoryViewReader) returns (res: Result<MethodBody>)
    modifies r
    ensures Agrees(res, r.position, MethodBodyAt(r.buffer, old(r.position)))
  {
    var h :- ReadBodyHeader(r);
    var codeLength :- r.ReadU30();
    var code := r.Read(codeLength);
    var count :- r.ReadU30();
    var exceptions :- ReadExceptionArray(r, count);
    var traits :- ReadTraitList(r);
    return Ok(MethodBody(h.methodIndex, h.maxStack, h.localCount, h.initScopeDepth, h.maxScopeDepth,
                         code, exceptions, traits));
  }

  // ---------------------------------------------------------------------------
  // The file
  // ---------------------------------------------------------------------------

  /** `ABCFile(reader)`. */
  method ReadAbcFile(r: MemoryViewReader) returns (res: Result<AbcFile>)
    modifies r
    ensures Agrees(res, r.position, AbcFileAt(r.buffer, old(r.position)))
  {
    var minor :- r.ReadU16();
    var major :- r.ReadU16();
    var pool :- ReadConstantPool(r);
    var methodCount :- r.ReadU30();
    var methods :- ReadMethodArray(r, methodCount);
    var metadataCount :- r.ReadU30();
    var metadata :- ReadMetadataArray(r, metadataCount);
    var classCount :- r.ReadU30();
    var instances :- ReadInstanceArray(r, classCount);
    var classes :- ReadClassArray(r, classCount);
    var scriptCount :- r.ReadU30();
    var scripts :- ReadScriptArray(r, scriptCount);
    var bodyCount :- r.ReadU30();
    var bodies :- ReadMethodBodyArray(r, bodyCount);
    return Ok(AbcFile(minor, major, pool, methods, metadata, instances, classes, scripts, bodies));
  }

  /**
   * Decoding a whole buffer as an ABC file, as `ABCFile(MemoryViewReader(data))`
   * does; the reader is local, so nothing outside changes.
   */
  method DecodeAbcFile(data: seq<Byte>) returns (res: Result<AbcFile>)
    ensures res.Ok? <==> AbcFileAt(data, 0).Ok?
    ensures res.Ok? ==> res.value == AbcFileAt(data, 0).value.value
    ensures res.Err? ==> res.error == AbcFileAt(data, 0).error
  {
    var r := new MemoryViewReader(data);
    res := ReadAbcFile(r);
  }
}
