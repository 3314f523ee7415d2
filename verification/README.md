# python-avm2 in Dafny

A model of the core of python-avm2, a Python interpreter for ActionScript 3
byte-code (ABC). The model covers:

- `MemoryViewReader`, the byte cursor (`avm2/io/__init__.py`);
- the ABC decoders of `avm2/abc/types.py`: constant pool, methods, metadata,
  traits, instances, classes, scripts and method bodies;
- `ASMultiname.qualified_name`;
- instruction decoding and the `execute` bodies that exist in
  `avm2/abc/instructions.py`;
- the linking, lookup and register set-up of `avm2/vm.py`;
- the property lookups of `avm2/runtime.py`;
- the SWF tag stream and the three tag decoders of `avm2/swf/`.

## How the model is built

It has two layers.

- **Reference functions.** Each decoder is a function from a byte sequence
  and a position to `Result<Parsed<T>>`. `Parsed<T>` is the decoded value
  plus the position after it. An `Err` carries the Python exception the
  source raises:
  - `IndexError`: indexing past the end of the memory view;
  - `StructError`: `struct.error` on a short read;
  - `ValueError`: an enumeration given an unknown value;
  - `KeyError`, `TypeError`, `AssertionError`, `NotImplementedError`, as
    raised by the source.
- **Imperative code.** Where the source changes state, the model does too.
  - `MemoryViewReader` is a class with `buffer` and `position` fields. Every
    read method advances `position`.
  - Every decoder method takes the reader and is proved equal to its
    reference function, through `Agrees(res, position, spec)`.
  - `MethodEnvironment` is a class whose `operand_stack`, `scope_stack` and
    `registers` fields the `Execute*` methods update. Each of those methods
    is proved equal to the pure step function `Step`.
  - The register set-up loop of `create_method_environment` is a method
    proved equal to the function `Registers`. Both are the source's
    construction with Finding A corrected.

The properties are lemmas about the reference functions. They cover:

- round trips (variable-length integers, fixed-width little-endian integers,
  s24, s32, u30 lists, namespaces, multinames, metadata items, exception
  records, operands, tag headers, `DoABC` and `DefineBinaryData` tags);
- the shape of every decoded structure;
- the error cases;
- the stack discipline of every executed instruction;
- the last-wins behaviour of the dictionaries `vm.py` builds.

Files:

- `wrappers.dfy`: `Option`, `Result`, `Parsed` and the error kinds.
- `io.dfy`: the cursor and the primitive decoders.
- `io_props.dfy`: round trips and bounds of the primitive decoders.
- `abc_types.dfy`: the ABC records and enumeration values.
- `abc_decode.dfy`: the ABC reference decoders.
- `abc_reader.dfy`: the decoders as methods on the cursor.
- `abc_props.dfy`: properties of the decoders.
- `abc_names.dfy`: `qualified_name`.
- `runtime.dfy`: runtime values and `get_property`.
- `operators.dfy`: the Python operators the instructions apply.
- `instructions.dfy`: instruction decoding.
- `execute.dfy`: instruction execution and `MethodEnvironment`.
- `vm.dfy`: `VirtualMachine` linking, lookups and `create_method_environment`.
- `swf.dfy`: `read_tags`, `skip_rect` and the SWF tag decoders.

Some facts about the code that shape the model:

- `read_int` reads up to five groups and raises no error for values wider
  than 30 bits.
- A short buffer raises `IndexError` or `struct.error`. There is no dedicated
  truncation error.
- There is no exception-table dispatch, no super-class resolution and no
  property resolution through the scope chain. The interpreter stops at the
  instructions listed below.

## Model

| member | source | states |
|---|---|---|
| Io.ReadBytes | avm2/io/__init__.py:25-31 | `read(size)` returns the slice at the position, clipped at the end of the buffer, and the position moves past exactly what was returned |
| Io.VarInt | avm2/io/__init__.py:97-112 | an unsigned `read_int` never yields a negative value |
| Io.FindFrom | avm2/io/__init__.py:81-89 | the search of `read_until` finds the first occurrence of the sentinel at or after the start, or reports that there is none |
| Io.MemoryViewReader.constructor | avm2/io/__init__.py:15-17 | a new reader is over the given buffer at position 0 |
| Io.MemoryViewReader.IsEof | avm2/io/__init__.py:22-23 | true exactly when the position is at or past the end of the buffer, which is exactly when the next `read_u8` raises `IndexError` and when `read_all` returns nothing; at the end every `read` returns nothing |
| Io.MemoryViewReader.Read | avm2/io/__init__.py:25-31 | the bytes returned and the new position are those of `ReadBytes` |
| Io.MemoryViewReader.ReadAll | avm2/io/__init__.py:33-39 | returns the rest of the buffer and moves to its end |
| Io.MemoryViewReader.Skip | avm2/io/__init__.py:41-46 | moves the position forward by `size`, even past the end, and returns the new position |
| Io.MemoryViewReader.ReadU8 | avm2/io/__init__.py:48-54 | succeeds exactly when a byte remains: it returns that byte and advances by one; otherwise `IndexError`, and the position is unchanged |
| Io.MemoryViewReader.ReadU16 | avm2/io/__init__.py:56-63 | two bytes little-endian, or `struct.error` with the position unchanged |
| Io.MemoryViewReader.ReadU32 | avm2/io/__init__.py:65-72 | four bytes little-endian, or `struct.error` with the position unchanged |
| Io.MemoryViewReader.SkipRect | avm2/io/__init__.py:74-79 | reads the `Nbits` byte and skips `((n >> 3) * 4 - 3 + 8) // 8` more bytes; `IndexError` at the end of the buffer |
| Io.MemoryViewReader.ReadUntil | avm2/io/__init__.py:81-89 | returns the bytes before the first sentinel and moves past the sentinel; `IndexError` when no sentinel follows |
| Io.MemoryViewReader.ReadString | avm2/io/__init__.py:91-95 | `read_until(0)` |
| Io.MemoryViewReader.ReadInt | avm2/io/__init__.py:97-112 | the loop's result and position are those of `VarInt`, signed or unsigned |
| Io.MemoryViewReader.ReadGroups | avm2/io/__init__.py:102-107 | the `for i in range(0, 35, 7)` loop accumulates the 7-bit groups up to the first byte without the continuation bit, or up to the fifth byte |
| Io.MemoryViewReader.ReadU30 | avm2/io/__init__.py:97-110 | the unsigned `read_int` used for u30 and u32 fields |
| Io.MemoryViewReader.ReadS32 | avm2/io/__init__.py:97-112 | the signed read with Finding B corrected: a run of one to four bytes sign-extended at the last group's bit 6, as written; a five-byte run's low 32 bits read as a 32-bit two's complement integer |
| Io.MemoryViewReader.ReadD64 | avm2/io/__init__.py:123-126 | reads eight bytes as an opaque double; `struct.error` when fewer remain |
| Io.MemoryViewReader.ReadS24 | avm2/io/__init__.py:128-130 | three bytes little-endian, sign-extended at bit 23; `struct.error` when fewer remain |
| IoProps.VarIntFromShape | avm2/io/__init__.py:102-107 | the loop reads a run of bytes that ends at the first byte without the continuation bit, or at the fifth byte, and yields the groups of that run; otherwise it runs off the buffer with `IndexError` |
| IoProps.VarIntShape | avm2/io/__init__.py:97-112 | from any position in the buffer, either `IndexError` with fewer than five bytes left, all of them continuation bytes, or a valid run whose value is below 2^35 |
| IoProps.EncodeVarUInt | avm2/io/__init__.py:97-107 | the encoder of the variable-length format is never empty |
| IoProps.EncodeVarUIntShape | avm2/io/__init__.py:97-107 | a value below 2^(7k) encodes in at most k bytes; the encoding is a run that spells the value |
| IoProps.VarUIntRoundTrip | avm2/io/__init__.py:97-110 | the unsigned `read_int` of the encoding of any v < 2^35 is v, and it ends right after the encoding |
| IoProps.EncodingIsRun | avm2/io/__init__.py:97-107 | the encoding of a value below 2^35 is a complete run of 1 to 5 bytes |
| IoProps.RunRoundTrip | avm2/io/__init__.py:97-110 | any complete run, canonical or not, reads back as the value of its groups |
| IoProps.ExtendSignRange | avm2/io/__init__.py:114-121 | `extend_sign` at bit k yields a value in [-2^k, 2^k), and keeps values that are already below 2^k |
| IoProps.ExtendSignTwosComplement | avm2/io/__init__.py:114-121 | `extend_sign` inverts the (k+1)-bit two's complement encoding |
| IoProps.LittleEndianBytes | avm2/io/__init__.py:56-72 | the n-byte little-endian encoder produces n bytes |
| IoProps.LittleEndianBound | avm2/io/__init__.py:56-72 | an n-byte little-endian value is below 2^(8n) |
| IoProps.LittleEndianRoundTrip | avm2/io/__init__.py:56-72 | decoding the n-byte little-endian encoding of v < 2^(8n) yields v |
| IoProps.FixedLERoundTrip | avm2/io/__init__.py:56-72 | `read_u16` and `read_u32` read back the value encoded at the position and advance by its width |
| IoProps.S24Range | avm2/io/__init__.py:128-130 | `read_s24` yields a value in [-2^23, 2^23) and advances by three |
| IoProps.S24RoundTrip | avm2/io/__init__.py:128-130 | every s24 value reads back from its three-byte two's complement encoding |
| IoProps.EncodeRun | avm2/io/__init__.py:103-107 | the n-byte run the loop of `read_int` consumes: n bytes |
| IoProps.EncodeRunShape | avm2/io/__init__.py:103-107 | a value below 2^(7n) has an n-byte run that ends the loop at its last byte and spells the value |
| IoProps.EncodeS32 | avm2/io/__init__.py:97-112 | the n-byte encoding of a signed value has n bytes |
| IoProps.EncodeS32Run | avm2/io/__init__.py:97-112 | the n-byte encoding of a value that fits is a complete run spelling its two's complement |
| IoProps.MinusOneEncoding | avm2/io/__init__.py:97-112 | the five-byte encoding of -1 is FF FF FF FF 0F |
| IoProps.SignedReadOutOfRange | avm2/io/__init__.py:109-112 | Finding B as written: the five-byte encoding of s32 -1 reads as 4294967295 through the signed `read_int`, and as -1 through the corrected read |
| IoProps.S32Range | avm2/abc/types.py:67 | the corrected signed read always yields a 32-bit signed integer |
| IoProps.S32RoundTrip | avm2/abc/types.py:67 | the corrected signed read reads back x from the n-byte encoding of x, for every n from 1 to 5 in which x fits: 7n-bit two's complement for n < 5, any s32 for n = 5 |
| IoProps.S32AgreesWithSignedRead | avm2/io/__init__.py:97-112 | the corrected read equals the signed `read_int` on every input except five-byte runs, and on a five-byte run it equals it exactly when the signed read stays in the 32-bit range |
| IoProps.FiveByteSignedRead | avm2/io/__init__.py:112 | sign extension at bit 34 agrees with the 32-bit two's complement reading exactly when its result is a 32-bit value |
| IoProps.SignedReadShortRun | avm2/io/__init__.py:97-112 | on a run of n <= 4 bytes the signed `read_int` is the unsigned read, less 2^(7n) exactly when bit 6 of the last byte is set |
| IoProps.ShortRunSign | avm2/io/__init__.py:112-121 | `extend_sign` on an n-byte run, n <= 4, takes off 2^(7n) exactly when bit 6 of the last byte is set |
| IoProps.ExtendSignNonNegative | avm2/io/__init__.py:114-121 | a non-negative result of `extend_sign` equals its input |
| IoProps.UntilRoundTrip | avm2/io/__init__.py:81-89 | bytes free of the sentinel, followed by the sentinel, read back exactly and the position moves past the sentinel |
| IoProps.RectTailIsRectSize | avm2/io/__init__.py:74-79 | `skip_rect` moves over exactly the byte size of a RECT: 5 bits of `Nbits`, then 4 fields of `Nbits` bits, rounded up to a byte |
| AbcDecode.ArrayN | avm2/abc/types.py:47-53 | a successful `read_array` of n items holds exactly n items |
| AbcDecode.ArrayPresent | avm2/abc/types.py:70-73 | an array read with an item reader that produces only present entries holds only present entries |
| AbcDecode.PoolPresent | avm2/abc/types.py:70-73 | a pool read with a `None` default holds `None` at index 0 and present entries everywhere else |
| AbcDecode.ConstantPoolAt | avm2/abc/types.py:66-73 | every decoded pool has its default at index 0: 0 for integers, NaN for doubles, `None` for strings, namespaces, namespace sets and multinames; the strings, namespaces and multinames are present from index 1 on |
| AbcDecode.AbcFileAt | avm2/abc/types.py:43-53 | a decoded file has as many instances as classes, because one count is read for both, and its constant pool has its defaults |
| AbcReader.ReadU30Array | avm2/abc/types.py:91 | the loop of `read_array(reader, read_int)` agrees with its reference decoder `AbcDecode.ArrayN(buf, pos, n, Io.U30)`: the same items and position, or the same error |
| AbcReader.ReadS32Array | avm2/abc/types.py:67 | the integer pool loop reads its items with the signed read, Finding B corrected: it succeeds exactly when the reference decoder `AbcDecode.ArrayN(buf, pos, n, Io.S32)` does, with the same items and position |
| AbcReader.ReadDoubleArray | avm2/abc/types.py:69 | the double pool loop agrees with its reference decoder `AbcDecode.ArrayN(buf, pos, n, Io.D64)`: the same items and position, or the same error |
| AbcReader.ReadStringArray | avm2/abc/types.py:70 | the string pool loop agrees with its reference decoder `AbcDecode.ArrayN(buf, pos, n, AbcDecode.SomeString)`: the same items and position, or the same error |
| AbcReader.ReadNamespaceArray | avm2/abc/types.py:71 | the namespace pool loop agrees with its reference decoder `AbcDecode.ArrayN(buf, pos, n, AbcDecode.SomeNamespace)`: the same items and position, or the same error |
| AbcReader.ReadNamespaceSetArray | avm2/abc/types.py:72 | the namespace-set pool loop agrees with its reference decoder `AbcDecode.ArrayN(buf, pos, n, AbcDecode.SomeNamespaceSet)`: the same items and position, or the same error |
| AbcReader.ReadMultinameArray | avm2/abc/types.py:73 | the multiname pool loop agrees with its reference decoder `AbcDecode.ArrayN(buf, pos, n, AbcDecode.SomeMultiname)`: the same items and position, or the same error |
| AbcReader.ReadOptionDetailArray | avm2/abc/types.py:149 | the option array loop agrees with its reference decoder `AbcDecode.ArrayN(buf, pos, n, AbcDecode.OptionDetailAt)`: the same items and position, or the same error |
| AbcReader.ReadMethodArray | avm2/abc/types.py:47 | the method array loop agrees with its reference decoder `AbcDecode.ArrayN(buf, pos, n, AbcDecode.MethodAt)`: the same items and position, or the same error |
| AbcReader.ReadItemArray | avm2/abc/types.py:171 | the metadata item loop agrees with its reference decoder `AbcDecode.ArrayN(buf, pos, n, AbcDecode.ItemAt)`: the same items and position, or the same error |
| AbcReader.ReadMetadataArray | avm2/abc/types.py:48 | the metadata array loop agrees with its reference decoder `AbcDecode.ArrayN(buf, pos, n, AbcDecode.MetadataAt)`: the same items and position, or the same error |
| AbcReader.ReadTraitArray | avm2/abc/types.py:202 | the trait array loop agrees with its reference decoder `AbcDecode.ArrayN(buf, pos, n, AbcDecode.TraitAt)`: the same items and position, or the same error |
| AbcReader.ReadInstanceArray | avm2/abc/types.py:50 | the instance array loop, `class_count` items long, agrees with its reference decoder `AbcDecode.ArrayN(buf, pos, n, AbcDecode.InstanceAt)`: the same items and position, or the same error |
| AbcReader.ReadClassArray | avm2/abc/types.py:51 | the class array loop, `class_count` items long, agrees with its reference decoder `AbcDecode.ArrayN(buf, pos, n, AbcDecode.ClassAt)`: the same items and position, or the same error |
| AbcReader.ReadScriptArray | avm2/abc/types.py:52 | the script array loop agrees with its reference decoder `AbcDecode.ArrayN(buf, pos, n, AbcDecode.ScriptAt)`: the same items and position, or the same error |
| AbcReader.ReadExceptionArray | avm2/abc/types.py:315 | the exception array loop agrees with its reference decoder `AbcDecode.ArrayN(buf, pos, n, AbcDecode.ExceptionAt)`: the same items and position, or the same error |
| AbcReader.ReadMethodBodyArray | avm2/abc/types.py:53 | the method body array loop agrees with its reference decoder `AbcDecode.ArrayN(buf, pos, n, AbcDecode.MethodBodyAt)`: the same items and position, or the same error |
| AbcReader.ReadAbcString | avm2/abc/types.py:70 | a string entry is a u30 length followed by that many bytes, clipped at the end of the buffer; the reader equals `AbcDecode.AbcString(buf, pos)` |
| AbcReader.ReadSomeString | avm2/abc/types.py:70 | a string pool entry is present; the reader equals `AbcDecode.SomeString(buf, pos)` |
| AbcReader.ReadNamespace | avm2/abc/types.py:81-83 | `ASNamespace`: a kind byte, `ValueError` for an unknown kind, then the name index; the reader equals `AbcDecode.NamespaceAt(buf, pos)` |
| AbcReader.ReadSomeNamespace | avm2/abc/types.py:71 | a namespace pool entry is present; the reader equals `AbcDecode.SomeNamespace(buf, pos)` |
| AbcReader.ReadU30List | avm2/abc/types.py:91 | a counted list of u30 values; the reader equals `AbcDecode.Array(buf, pos, Io.U30)` |
| AbcReader.ReadNamespaceSet | avm2/abc/types.py:90-91 | `ASNamespaceSet`: a counted list of namespace indices; the reader equals `AbcDecode.NamespaceSetAt(buf, pos)` |
| AbcReader.ReadSomeNamespaceSet | avm2/abc/types.py:72 | a namespace-set pool entry is present; the reader equals `AbcDecode.SomeNamespaceSet(buf, pos)` |
| AbcReader.ReadMultiname | avm2/abc/types.py:103-121 | `ASMultiname`: a kind byte, then the fields of that kind; the reader equals `AbcDecode.MultinameAt(buf, pos)` |
| AbcReader.ReadSomeMultiname | avm2/abc/types.py:73 | a multiname pool entry is present; the reader equals `AbcDecode.SomeMultiname(buf, pos)` |
| AbcReader.ReadConstantPool | avm2/abc/types.py:66-73 | `ASConstantPool`: the seven pools in their fixed order; the reader equals `AbcDecode.ConstantPoolAt(buf, pos)` |
| AbcReader.ReadOptionDetail | avm2/abc/types.py:159-161 | `ASOptionDetail`: a value index, then a constant kind byte; the reader equals `AbcDecode.OptionDetailAt(buf, pos)` |
| AbcReader.ReadMethod | avm2/abc/types.py:142-151 | `ASMethod`: the counts and indices, the flags, then the options and parameter names if the flags announce them; the reader equals `AbcDecode.MethodAt(buf, pos)` |
| AbcReader.ReadItem | avm2/abc/types.py:179-181 | `ASItem`: key, then value; the reader equals `AbcDecode.ItemAt(buf, pos)` |
| AbcReader.ReadMetadata | avm2/abc/types.py:169-171 | `ASMetadata`: a name, then the items; the reader equals `AbcDecode.MetadataAt(buf, pos)` |
| AbcReader.ReadTraitSlot | avm2/abc/types.py:239-244 | `ASTraitSlot`: the value kind is read only when the value index is not 0; the reader equals `AbcDecode.TraitSlotAt(buf, pos)` |
| AbcReader.ReadPair | avm2/abc/types.py:252-274 | the two u30 fields of class, function and method traits; the reader equals `AbcDecode.PairAt(buf, pos)` |
| AbcReader.ReadTrait | avm2/abc/types.py:213-229 | `ASTrait`: the name, the kind nibble and attribute nibble, the payload of that kind, then the metadata if the attributes announce it; the reader equals `AbcDecode.TraitAt(buf, pos)` |
| AbcReader.ReadTraitList | avm2/abc/types.py:202 | a counted list of traits; the reader equals `AbcDecode.Array(buf, pos, AbcDecode.TraitAt)` |
| AbcReader.ReadInstance | avm2/abc/types.py:194-202 | `ASInstance`: the protected namespace is read only when the flag is set; the reader equals `AbcDecode.InstanceAt(buf, pos)` |
| AbcReader.ReadClass | avm2/abc/types.py:282-284 | `ASClass`: the initialiser, then the traits; the reader equals `AbcDecode.ClassAt(buf, pos)` |
| AbcReader.ReadScript | avm2/abc/types.py:292-294 | `ASScript`: the initialiser, then the traits; the reader equals `AbcDecode.ScriptAt(buf, pos)` |
| AbcReader.ReadException | avm2/abc/types.py:327-332 | `ASException`: the five u30 fields in order; the reader equals `AbcDecode.ExceptionAt(buf, pos)` |
| AbcReader.ReadBodyHeader | avm2/abc/types.py:308-313 | the five u30 header fields of a method body; the reader equals `AbcDecode.BodyHeaderAt(buf, pos)` |
| AbcReader.ReadMethodBody | avm2/abc/types.py:308-316 | `ASMethodBody`: the header, the code, the exceptions and the traits; the reader equals `AbcDecode.MethodBodyAt(buf, pos)` |
| AbcReader.ReadAbcFile | avm2/abc/types.py:43-53 | `ABCFile`: the versions, the pool, then every array, with one count shared by instances and classes; the reader equals `AbcDecode.AbcFileAt(buf, pos)` |
| AbcReader.DecodeAbcFile | avm2/abc/types.py:43-53 | decoding a whole buffer from position 0 succeeds or fails exactly as the reference decoder `AbcDecode.AbcFileAt(data, 0)` does, with the same value or error |
| AbcProps.U30Bound | avm2/abc/types.py:83 | every u30 field holds a value below 2^35 and takes at least one byte |
| AbcProps.PoolShape | avm2/abc/types.py:67-73 | `read_array_with_default` with count c yields max(c, 1) entries, the first of which is the default |
| AbcProps.NamespaceRoundTrip | avm2/abc/types.py:81-83 | every namespace with a known kind reads back from its encoding |
| AbcProps.NamespaceErrors | avm2/abc/types.py:81-83 | `IndexError` at the end of the buffer; `ValueError` for an unknown kind byte; a decoded namespace always has a known kind |
| AbcProps.U30sBound | avm2/abc/types.py:145 | every entry of an array of u30 values is below 2^35 |
| AbcProps.U30ListBound | avm2/abc/types.py:91 | a counted u30 list has a u30 length and u30 entries |
| AbcProps.MultinameShape | avm2/abc/types.py:103-121 | a decoded multiname has exactly the fields its kind reads; `IndexError` at the end of the buffer and `ValueError` for an unknown kind byte |
| AbcProps.MultinameFieldOrder | avm2/abc/types.py:103-121 | for each kind, which u30 fields go into which multiname field, in the order read, and where decoding stops |
| AbcProps.U30sRoundTrip | avm2/abc/types.py:145 | `read_array(reader, read_int, n)` reads back any `n` u30 values from their encodings laid one after the other, and stops just past them |
| AbcProps.U30ListRoundTrip | avm2/abc/types.py:91 | `read_array(reader, read_int)` reads back any list of u30 values from its count followed by the values |
| AbcProps.MultinameRoundTrip | avm2/abc/types.py:103-121 | every multiname of every kind that carries exactly the fields its kind reads reads back from its encoding (the kind byte, then those fields in the order read), and stops just past it |
| AbcProps.MethodShape | avm2/abc/types.py:142-151 | a decoded method has one parameter type per parameter; it has options iff HAS_OPTIONAL is set, and parameter names iff HAS_PARAM_NAMES is set, one per parameter |
| AbcProps.OptionsFlag | avm2/abc/types.py:148-149 | the options are read iff HAS_OPTIONAL is set |
| AbcProps.ParamNamesFlag | avm2/abc/types.py:150-151 | the parameter names are read iff HAS_PARAM_NAMES is set, and there are `param_count` of them |
| AbcProps.OptionDetailKind | avm2/abc/types.py:159-161 | a decoded option has a known constant kind; an unknown kind byte gives `ValueError` |
| AbcProps.ItemFieldOrder | avm2/abc/types.py:179-181 | an item is its key then its value, in the order read |
| AbcProps.ItemRoundTrip | avm2/abc/types.py:179-181 | every item with u30 key and value reads back from the encoding of its key followed by its value |
| AbcProps.TraitDataKind | avm2/abc/types.py:218-227 | slot and const traits carry a slot payload, class traits a class payload, function traits a function payload, and method, getter and setter traits a method payload |
| AbcProps.TraitMetadataFlag | avm2/abc/types.py:228-229 | trait metadata is read iff the METADATA attribute is set |
| AbcProps.TraitShape | avm2/abc/types.py:213-229 | the kind byte splits into the low kind nibble and the high attribute nibble; a kind above CONST (6) gives `ValueError` |
| AbcProps.TraitPayload | avm2/abc/types.py:218-227 | every decoded trait carries the payload of its kind |
| AbcProps.TraitMetadata | avm2/abc/types.py:228-229 | every decoded trait has metadata iff its METADATA attribute is set |
| AbcProps.TraitSlotShape | avm2/abc/types.py:239-244 | a slot has a value kind iff its value index is not 0, and that kind is a known constant kind |
| AbcProps.InstanceShape | avm2/abc/types.py:194-202 | an instance has a protected namespace iff its PROTECTED_NS flag is set |
| AbcProps.ExceptionFieldOrder | avm2/abc/types.py:327-332 | an exception is from, to, target, type and variable name, in the order read |
| AbcProps.ExceptionRoundTrip | avm2/abc/types.py:327-332 | every exception record with u30 fields reads back from the encodings of from, to, target, type and variable name laid one after the other |
| AbcProps.MethodBodyCode | avm2/abc/types.py:313-314 | the code is the `code_length` bytes after the length field, cut short only at the end of the buffer |
| AbcNames.StripLeft | avm2/abc/types.py:129 | `lstrip('.')` removes exactly the leading dots |
| AbcNames.StripRight | avm2/abc/types.py:129 | `rstrip('.')` removes exactly the trailing dots |
| AbcNames.StripDotsSplits | avm2/abc/types.py:129 | `strip('.')` yields a middle slice of its input, with only dots outside it, that neither starts nor ends with a dot |
| AbcNames.StripDotsKeeps | avm2/abc/types.py:129 | `strip('.')` keeps a string with no dot at either end |
| AbcNames.StripDotsIdempotent | avm2/abc/types.py:129 | stripping twice is stripping once |
| AbcNames.Join | avm2/abc/types.py:129 | `f'{ns}.{name}'.strip('.')` never starts or ends with a dot |
| AbcNames.JoinKeeps | avm2/abc/types.py:129 | with a non-empty namespace and name and no dot at their edges, the result is `ns.name` |
| AbcNames.JoinEmptyNamespace | avm2/abc/types.py:129 | with an empty namespace string the result is the bare name |
| AbcNames.QualifiedName | avm2/abc/types.py:123-129 | a qualified name never starts or ends with a dot |
| AbcNames.QualifiedNameAsserts | avm2/abc/types.py:124-126 | `AssertionError` iff the multiname is not a QName or its namespace or name index is missing or 0 |
| AbcNames.QualifiedNameDefined | avm2/abc/types.py:123-129 | with indices inside the pools, the result is the stripped join of the namespace's string and the name's string |
| Runtime.NewObject | avm2/runtime.py:10-13 | `ASObject()` has no class and no properties |
| Runtime.NewString | avm2/runtime.py:32-34 | `ASString(value)` has no class, an empty instance dict and the given text |
| Runtime.NewArray | avm2/runtime.py:48-50 | `ASArray(value)` has no class, an empty instance dict and the given elements |
| Runtime.NameOf | avm2/runtime.py:13 | a property key is built exactly from hashable names; lists, `undefined` and the `ASObject` instances give `TypeError` |
| Runtime.Lookup | avm2/runtime.py:15-16 | `properties[namespace, name]` succeeds iff the key is present and yields its value; otherwise `KeyError`, or `TypeError` for an unhashable name |
| Runtime.StringProperty | avm2/runtime.py:36-40 | `Runtime.GetProperty` (the `get_property` methods): an index inside the string yields that character; any other name is looked up in the class table `ASString.properties`, never in the instance dict |
| Runtime.ArrayProperty | avm2/runtime.py:52-56 | `Runtime.GetProperty` (the `get_property` methods): an index inside the array yields that element; any other name is looked up in the instance's own properties, never in the class table |
| Runtime.ObjectProperty | avm2/runtime.py:15-16 | `Runtime.GetProperty` (the `get_property` methods): `ASObject.get_property` succeeds exactly for present keys, with their values, and fails with `KeyError` otherwise |
| Runtime.NewObjectHasNoProperties | avm2/runtime.py:10-24 | `Runtime.GetProperty` (the `get_property` methods): a fresh `ASObject` and `undefined` have no property at all |
| Runtime.BooleanNames | avm2/runtime.py:36-56 | `Runtime.GetProperty` (the `get_property` methods): `True` and `False` as names behave as 1 and 0, as Python's `isinstance(True, int)` and dict hashing make them |
| PyOps.Add | avm2/abc/instructions.py:58-63 | `value_1 + value_2` adds numbers (ints and booleans) exactly, concatenates two strings or two lists, and raises `TypeError` otherwise |
| PyOps.IntOf | avm2/abc/instructions.py:241-249 | `int(v)` succeeds exactly on ints and booleans, with their value; `int` of a string is not modelled |
| PyOps.CompareStrings | avm2/abc/instructions.py:556-567 | string comparison yields -1, 0 or 1 |
| PyOps.Compare | avm2/abc/instructions.py:620-687 | the comparison of two values yields -1, 0 or 1, or fails with `TypeError` or an unmodelled case |
| PyOps.CompareStringsFlips | avm2/abc/instructions.py:620-687 | swapping two strings negates their comparison |
| PyOps.CompareStringsEqual | avm2/abc/instructions.py:620-687 | two strings compare equal iff they are equal |
| PyOps.CompareSymmetry | avm2/abc/instructions.py:556-687 | `a > b` is `b < a`; `a >= b` is the negation of `a < b`, and fails exactly when it does |
| PyOps.NumericOrder | avm2/abc/instructions.py:556-687 | on ints and booleans, `<`, `>` and `>=` are the order of their values |
| Instructions.OperandAt | avm2/abc/instructions.py:27-32 | every operand read takes at least one byte |
| Instructions.Operands | avm2/abc/instructions.py:34-36 | the field loop yields one value per field, in order |
| Instructions.ReadOperand | avm2/abc/instructions.py:27-32 | the reader chosen for a field type agrees with the reference operand decoder `Instructions.OperandAt` |
| Instructions.ReadOperands | avm2/abc/instructions.py:34-36 | the `for field in fields(self)` loop agrees with the reference decoder `Instructions.Operands` |
| Instructions.ReadS24Array | avm2/abc/instructions.py:805 | the case-offset loop of `LookupSwitch` agrees with `read_array(reader, read_s24, n)` |
| Instructions.ReadInstruction | avm2/abc/instructions.py:14-16 | `read_instruction` agrees with the reference decoder `Instructions.InstructionAt`: the opcode byte, then its class's fields or `LookupSwitch`'s own layout |
| Instructions.InstructionAtDecoded | avm2/abc/instructions.py:34-36 | a decoded instruction has one operand per field of its class, and a `LookupSwitch` has at least one case offset |
| Instructions.InstructionAtAdvances | avm2/abc/instructions.py:14-16 | decoding an instruction always consumes at least one byte |
| Instructions.S24ArrayNext | avm2/abc/instructions.py:797-806 | n case offsets take exactly 3n bytes |
| Instructions.UnknownOpcode | avm2/abc/instructions.py:14-16 | decoding raises `KeyError` iff no class is registered for the opcode |
| Instructions.U30OperandRoundTrip | avm2/abc/instructions.py:29 | every u30 operand reads back from its encoding |
| Instructions.UIntOperandRoundTrip | avm2/abc/instructions.py:30 | every uint operand reads back from its four bytes |
| Instructions.OperandRoundTrip | avm2/abc/instructions.py:27-32 | every operand of every type reads back from its encoding |
| Instructions.NoOperandRoundTrip | avm2/abc/instructions.py:34-36 | an opcode with no fields decodes from its single byte |
| Instructions.OneOperandRoundTrip | avm2/abc/instructions.py:14-36 | an opcode with one field decodes from its byte followed by the encoding of that field |
| Execute.WithoutExecute | avm2/abc/instructions.py:38-39 | an instruction whose class has no `execute` raises `NotImplementedError` and changes nothing |
| Execute.StackUnderflow | avm2/abc/instructions.py:58-1138 | an instruction that pops more values than the stack holds raises `IndexError` with the stack emptied |
| Execute.StackDiscipline | avm2/abc/instructions.py:58-1138 | every executed instruction pops its operands from the top and pushes its results there, leaving the rest of the stack unchanged |
| Execute.BinaryDiscipline | avm2/abc/instructions.py:58-76 | `Add`, `AddInteger`, `SubtractInteger` and `GreaterEquals` pop two values and push one |
| Execute.BranchDiscipline | avm2/abc/instructions.py:620-687 | the compare-and-branch instructions pop two values and push nothing |
| Execute.PopOneDiscipline | avm2/abc/instructions.py:337-345 | `Dup` pops one and pushes two, `ConvertToInteger` pops one and pushes one, and the pop, store, branch and return instructions pop one and push nothing |
| Execute.PushDiscipline | avm2/abc/instructions.py:926-1013 | the push and get-local instructions pop nothing and push one |
| Execute.InvokeDiscipline | avm2/abc/instructions.py:110-120 | `Call` pops the arguments, receiver and function and pushes the result; `Construct` does the same without the receiver; `ConstructSuper` pushes nothing |
| Execute.RegistersKept | avm2/abc/instructions.py:1069-1094 | only `SetLocal0-3` change a register, the one they name, to the value on top of the stack |
| Execute.ScopeStackKept | avm2/abc/instructions.py:920-991 | only `PushScope` and `PopScope` change the scope stack, by pushing the popped value or dropping the top |
| Execute.IfFalseJumps | avm2/abc/instructions.py:591-602 | `IfFalse` pops one value and jumps exactly when it is falsy in Python; `undefined` and every object fall through |
| Execute.LessBranchesComplement | avm2/abc/instructions.py:620-687 | `IfLT` and `IfNLT` leave the same frame and take opposite branches; both raise the same error when the values do not compare |
| Execute.NumericBranches | avm2/abc/instructions.py:620-659 | on numbers, `IfNGT` jumps iff value1 <= value2 and `IfLT` iff value1 < value2 |
| Execute.GreaterEqualsIsNotLess | avm2/abc/instructions.py:556-567 | `GreaterEquals` pushes the negation of `value_1 < value_2`, or raises what that comparison raises |
| Execute.IntegerArithmetic | avm2/abc/instructions.py:66-76 | for every stack `base + [v1, v2]`: `AddInteger` and `SubtractInteger` pop both and push `int(v1) + int(v2)` or `int(v1) - int(v2)` on unbounded integers, or raise the error of `int(v1)`, else of `int(v2)` |
| Execute.IntegerArithmeticDoesNotWrap | avm2/abc/instructions.py:66-76 | `AddInteger` and `SubtractInteger` do not apply ToInt32: 2^31 - 1 + 1 is 2^31 |
| Execute.DupThenPop | avm2/abc/instructions.py:337-345 | `Dup` pushes a copy of the top, and `Pop` after it restores the frame |
| Execute.SetThenGetLocal | avm2/abc/instructions.py:482-506 | `GetLocalN` after `SetLocalN` puts the stored value back on the stack |
| Execute.LocalOutOfRange | avm2/abc/instructions.py:482-506 | `GetLocalN` and `SetLocalN` beyond the register file raise `IndexError`, `SetLocalN` after popping |
| Execute.PushScopeThenUse | avm2/abc/instructions.py:987-991 | `PushScope` rejects `None` and `undefined` with `AssertionError`; otherwise `GetScopeObject` at the old depth pushes the scope and `PopScope` restores the scope stack |
| Execute.PushByteUnsigned | avm2/abc/instructions.py:926-930 | `PushByte` reads an unsigned byte and pushes it without sign extension |
| Execute.Returns | avm2/abc/instructions.py:1032-1055 | `ReturnValue` pops and returns the top of the stack; `ReturnVoid` returns `undefined` and changes nothing |
| Execute.CallArguments | avm2/abc/instructions.py:110-120 | `Call` passes the arguments in push order to `function.call(receiver, args)` and pushes what it returns |
| Execute.ConstructArguments | avm2/abc/instructions.py:203-212 | `Construct` passes the arguments in push order to `constructor.construct(args)` and pushes what it returns |
| Execute.ConstructSuperChecksObject | avm2/abc/instructions.py:221-233 | `ConstructSuper` pops the arguments and the object and raises `NotImplementedError` iff the object is `None` or `undefined` |
| Execute.Reverse | avm2/abc/instructions.py:114-115 | `args.reverse()` turns the popped arguments back into push order |
| Execute.MethodEnvironment.constructor | avm2/vm.py:130-134 | a new environment has the given registers and empty stacks |
| Execute.MethodEnvironment.Pop | avm2/abc/instructions.py:60 | `operand_stack.pop()` returns and removes the top, or raises `IndexError` on an empty stack |
| Execute.MethodEnvironment.Push | avm2/abc/instructions.py:62 | `operand_stack.append(v)` puts v on top |
| Execute.MethodEnvironment.PopArgs | avm2/abc/instructions.py:114-115 | the argument loop pops `arg_count` values and returns them in push order, or raises `IndexError` with the stack emptied |
| Execute.MethodEnvironment.ExecuteBinary | avm2/abc/instructions.py:58-76 | the new frame and outcome are those of the step function `Execute.StepBinary` on the old frame |
| Execute.MethodEnvironment.ExecuteBranch | avm2/abc/instructions.py:620-687 | the new frame and outcome are those of the step function `Execute.StepBranch` on the old frame |
| Execute.MethodEnvironment.ExecutePopOne | avm2/abc/instructions.py:337-345 | the new frame and outcome are those of the step function `Execute.StepPopOne` on the old frame |
| Execute.MethodEnvironment.ExecutePush | avm2/abc/instructions.py:926-1013 | the new frame and outcome are those of the step function `Execute.StepPush` on the old frame |
| Execute.MethodEnvironment.ExecuteCall | avm2/abc/instructions.py:110-120 | the new frame and outcome are those of the step function `Execute.StepInvoke(CALL, …)` on the old frame |
| Execute.MethodEnvironment.ExecuteConstruct | avm2/abc/instructions.py:203-233 | the new frame and outcome are those of the step function `Execute.StepInvoke` on the old frame |
| Execute.MethodEnvironment.Execute | avm2/abc/instructions.py:38-39 | `ins.execute(machine, environment)`: the new frame and outcome are those of the step function `Execute.Step` on the old frame |
| Vm.LastIndex | avm2/vm.py:20 | `dict(pairs)` maps each key to the last index that holds it, and holds no other key |
| Vm.LinkMethodBodies | avm2/vm.py:25-29 | each method index with a body maps to the last body naming it, and no other index is present |
| Vm.ClassName | avm2/vm.py:35-43 | linking an instance fails only with `AssertionError`, `IndexError` or `AttributeError` |
| Vm.LinkClassNames | avm2/vm.py:31-43 | one name per instance, in order; the linking fails with the error of the first instance whose name does not link |
| Vm.LookupClassFindsLast | avm2/vm.py:48-49 | `lookup_class` finds a name iff some instance has it, answering with the last such instance, and raises `KeyError` otherwise |
| Vm.NewMachineFails | avm2/vm.py:15-20 | when instance i is the first whose name does not link, building the machine fails with that instance's error |
| Vm.MethodAndBodyFindsLast | avm2/vm.py:66-79 | the method and body found for a method index are that method and the last body naming it; `KeyError` iff no body names it |
| Vm.ClassNameIsUnstrippedQualifiedName | avm2/vm.py:43 | a linked class name is `qualified_name` without the `strip('.')` |
| Vm.EmptyNamespaceKeepsDot | avm2/vm.py:43 | a class in the empty namespace is linked under a name with a leading dot |
| Vm.FillErrorAsWrittenDiffers | avm2/vm.py:108-110 | Finding A: the fill loop as written agrees with the corrected one when there is an option list, and raises `TypeError` without one |
| Vm.From | avm2/vm.py:114 | `arguments[k:]` is the suffix from k, or empty |
| Vm.Undefineds | avm2/vm.py:99 | the filler list has the requested length and holds `undefined` only |
| Vm.RegisterLayout | avm2/vm.py:93-121 | a successful set-up has `local_count` registers: `this`, the arguments in order, and `undefined` in every other register but the rest/arguments slot |
| Vm.RestAndArgumentsRegisters | avm2/vm.py:113-119 | with NEED_ARGUMENTS the slot after the parameters holds all arguments; with NEED_REST alone it holds the (empty) surplus |
| Vm.RegistersErrors | avm2/vm.py:99-120 | each error of the set-up and the exact condition under which it succeeds |
| Vm.NoOptionsCounterexample | avm2/vm.py:108-110 | Finding A: a method with no option list, `local_count` 2 and no arguments raises `TypeError` as written and gets `[this, undefined]` when corrected |
| Vm.BuildRegisters | avm2/vm.py:97-120 | the register set-up loop, Finding A corrected, yields the registers of `Vm.Registers`, or its error |
| Vm.CreateMethodEnvironment | avm2/vm.py:93-121 | a fresh environment holding those registers (Finding A corrected) and empty stacks, or the error of the set-up |
| Vm.EnterMethod | avm2/vm.py:66-79 | the body lookup of `execute_method`, then the environment of that method and body, with Finding A corrected |
| Swf.ParseDoAbc | avm2/swf/types.py:21-25 | `DoABCTag(raw)` equals its reference decoder `Swf.DoAbcAt(raw)` |
| Swf.DoAbcFields | avm2/swf/types.py:21-25 | a decoded tag is the u32 flags, the name up to the first 0 byte, and everything after that byte |
| Swf.DoAbcErrors | avm2/swf/types.py:21-25 | `struct.error` under four bytes; `IndexError` when no 0 byte ends the name |
| Swf.DoAbcRoundTrip | avm2/swf/types.py:21-25 | flags, a name without 0 bytes and any payload read back from their encoding |
| Swf.DoAbcFrom | avm2/swf/types.py:21-25 | the name is found by its terminating 0 byte, whatever follows |
| Swf.ParseBinaryData | avm2/swf/types.py:47-51 | `DefineBinaryDataTag(raw)` equals its reference decoder `Swf.BinaryDataAt(raw)` |
| Swf.BinaryDataFields | avm2/swf/types.py:47-51 | decoding succeeds iff there are at least six bytes, as a u16, a u32 and the rest; `struct.error` otherwise |
| Swf.BinaryDataRoundTrip | avm2/swf/types.py:47-51 | tag, reserved value and data read back from their encoding |
| Swf.ReadSymbol | avm2/swf/types.py:36 | one entry of the comprehension: a u16 id, then a 0-terminated name |
| Swf.ParseSymbols | avm2/swf/types.py:32-38 | `SymbolsTag(raw)` equals its reference decoder `Swf.SymbolsAt(raw)` |
| Swf.ReadTable | avm2/swf/types.py:35-38 | the dict comprehension builds the table of the entries read, or fails with the first error |
| Swf.TableLastWins | avm2/swf/types.py:35-38 | an id is in the dict iff some entry has it, and it maps to the name of the last such entry |
| Swf.SymbolsCount | avm2/swf/types.py:34-38 | `count` entries are read, after the ones already read |
| Swf.HeaderRoundTrip | avm2/swf/parser.py:60-64 | short and long record headers decode back to their type and length |
| Swf.ReadHeader | avm2/swf/parser.py:60-64 | the header read equals its reference decoder `Swf.HeaderAt(buf, pos)` |
| Swf.HeaderAdvances | avm2/swf/parser.py:60-64 | a header takes at least two bytes and ends inside the buffer |
| Swf.ReadTags | avm2/swf/parser.py:55-73 | the `while True` loop yields the tags, and ends with the error, of the reference definition `Swf.TagsFrom` |
| Swf.KeepsYielded | avm2/swf/parser.py:71 | tags already yielded are never taken back |
| Swf.StopsAfterEnd | avm2/swf/parser.py:72-73 | no tag before the last is `END`, and a run that ends without error ends with `END` |
| Swf.YieldsKnownTypes | avm2/swf/parser.py:65-71 | every yielded tag has a type of the `TagType` enumeration |
| Swf.TagHeaderDecides | avm2/swf/parser.py:65-71 | an unknown type is skipped without being yielded; a known one is yielded with the next `length` bytes, fewer at the end of the stream |
| Swf.TruncatedStream | avm2/swf/parser.py:60 | with fewer than two bytes left the stream ends with `struct.error` and no tag |
| Swf.SkipRect | avm2/swf/parser.py:47-52 | reads `Nbits` and seeks past the rest of the RECT; `ValueError` when no byte is left to unpack |

## Left out

- Floating point: doubles are kept as their eight raw bytes, and the doubles pool holds NaN at index 0. No arithmetic is done on them.
- UTF-8: strings are kept as bytes. `decode('utf-8')` and its `UnicodeDecodeError` are not modelled.
- `avm2/abc/enums.py` is not part of this model. Its values are taken from the AVM2 Overview. The kind enumerations (namespace, multiname, trait and constant kinds) reject unknown values with `ValueError`. The flag enumerations (method, class and trait attributes, `DoABCTagFlags`) accept any value.
- `avm2/abc/parser.py` is not part of this model. It has the functions `read_array`, `read_array_with_default` and `read_string`. The model reads:
  - `read_array` as a u30 count (or a given count) followed by that many items;
  - `read_array_with_default` as a count c followed by max(c - 1, 0) items, after the default;
  - `read_string` as a u30 length followed by that many bytes.
- Instructions whose `execute` needs the machine's constant pool, scopes or objects (`Kill`, `PushNull`, `PushString`, `PushInteger`, `PushDouble`, `CallProperty`, `NewClass`, `FindPropStrict`, `FindProperty`, `GetLex`, `GetProperty`, `InitProperty`, `ConvertToDouble`, `Divide`) step to an `Unmodelled` outcome. Every other instruction without an `execute` raises `NotImplementedError`, as in the base class.
- `execute_code`, `execute_method_body`, `execute_script` and `execute_entry_point` are not modelled. `execute_code` is the endless `while True` loop, which ends only by an exception such as `ASReturnException` or `ASJumpException`; `avm2/exceptions.py` is not part of this model. The body lookup of `execute_method` is modelled as `Vm.EnterMethod`.
- `execute_tag` and `execute_do_abc_tag` are not modelled. They are compositions of `DoABCTag`, `ABCFile` and the `VirtualMachine` constructor, which are modelled.
- `get_optional_value` always raises `NotImplementedError`. It is modelled by that error alone.
- `function.call` and `constructor.construct` in `Call` and `Construct` call objects this model does not define. They are a `Host` parameter, two functions from values to results.
- Aliasing: Python lists are values in the model. A list pushed by `NEED_ARGUMENTS`, or the register list itself, is copied, not shared.
- After an error, the reader's position is left unconstrained by most contracts. For example, `read_d64` advances before `struct.unpack` fails.
- `TagType` is not part of this model. Its values are the parameter `known` of `Swf.ReadTags`.
- The attribute names `vm.py` reads (`method_body.method`, `instance.name`, `multiname.ns`, `namespace.name`, `multiname.name`, and `script.init` in `execute_script`) are not the names `avm2/abc/types.py` sets (`method_index`, `name_index`, `namespace_index`, `name_index`, `name_index`, `init_index`). The model reads the fields the decoders set. With the names as written, linking any method body or instance raises `AttributeError`.
- Vm.ClassName: `link_class_names` does not apply `strip('.')`, unlike `qualified_name`. The model keeps that difference, as `Vm.ClassNameIsUnstrippedQualifiedName` and `Vm.EmptyNamespaceKeepsDot` state.
- Execute.PushByteUnsigned: `PushByte` pushes the unsigned byte, without the sign extension the AVM2 format describes. The model follows the code.
- `GetScopeObject`'s index is a u8, so Python's negative indexing never applies to it.
- Instructions.OneOperandRoundTrip: the instruction round trip is proved for zero and one operand. Instructions with two or four fields, and `LookupSwitch`, are not given a round-trip lemma.
- `None` strings in a qualified name are rendered as the text `None`, as an f-string does. Other Python renderings are not modelled.
- Swf.ReadSymbol: each entry reads its u16 id before its name. That is the order of the dict comprehension at `avm2/swf/types.py:35-38` from Python 3.8 on, which evaluates the key first; earlier CPython evaluated the value first, which would read the name before the id. The model assumes Python 3.8 or later.
- `read_tags` is a generator. The model consumes it to its end, or to its first error.
- `value |= (byte & 0x7F) << i` is modelled with `+`, because the groups occupy disjoint bits.
- Vm.BuildRegisters: the fill loop reads a missing option list as empty, as Finding A corrects. Once the checks before the loop pass, it differs from `avm2/vm.py:110` exactly when `options` is `None` and `local_count > len(arguments) + 1`. There the source raises `TypeError`, and the model fills the registers with `undefined` and goes on (`Vm.FillErrorAsWrittenDiffers`).
- Vm.CreateMethodEnvironment: builds its registers with `Vm.BuildRegisters`, so it carries the same Finding A correction. When `options` is `None` and `local_count > len(arguments) + 1`, it does not raise the `TypeError` of `avm2/vm.py:110`.
- Vm.EnterMethod: enters through `Vm.CreateMethodEnvironment`, so it carries the same Finding A correction. When `options` is `None` and `local_count > len(arguments) + 1`, it does not raise the `TypeError` of `avm2/vm.py:110`.
- AbcDecode.ConstantPoolAt: the integer pool is read with the signed read corrected as in Finding B. It differs from `read_int(unsigned=False)` only on an entry encoded in five bytes whose signed read leaves the 32-bit range (`IoProps.S32AgreesWithSignedRead`). On every other entry it gives the same value.
- AbcDecode.AbcFileAt: the constant pool is decoded as `AbcDecode.ConstantPoolAt` says, with the Finding B correction on five-byte integer entries.
- AbcReader.ReadS32Array: reads with the Finding B correction, as `AbcDecode.ConstantPoolAt` does.
- AbcReader.ReadConstantPool: reads the integer pool with the Finding B correction, as `AbcDecode.ConstantPoolAt` does.
- AbcReader.ReadAbcFile: reads the integer pool with the Finding B correction, as `AbcDecode.ConstantPoolAt` does.
- AbcReader.DecodeAbcFile: decodes the integer pool with the Finding B correction, as `AbcDecode.ConstantPoolAt` does.
- PyOps.IntOf: `int(s)` of a string (parsing) is not modelled; it gives the outcome `Unmodelled`.
- PyOps.Compare: comparing two lists element by element is not modelled; it gives the outcome `Unmodelled`.
- Execute.IntegerArithmeticDoesNotWrap: `AddInteger`, `SubtractInteger` and `ConvertToInteger` do not apply ToInt32 in the source, so the model does not wrap either.

## Findings

| source | as written | input that shows it | evidently intended | confidence | as-written member | corrected member |
|---|---|---|---|---|---|---|
| avm2/vm.py:108-110 | the fill loop evaluates `len(method.options)` for every register after the arguments, and `options` is `None` for a method without HAS_OPTIONAL | a method with no option list, `local_count` 2, called with no arguments: `len(None)` raises `TypeError` | a missing option list counts as no optional parameters, so the register gets `undefined` | not executed | Vm.NoOptionsCounterexample | Vm.RegistersErrors |
| avm2/io/__init__.py:109-112, used at avm2/abc/types.py:67 | a signed `read_int` sign-extends at bit `6 + i`. For a run of one to four bytes that is the run's top bit, and the result is the run read as two's complement, as the s32 format intends. For a five-byte run it is bit 34, past the 32 bits of an s32, so the result can leave the 32-bit range | s32 -1 is encoded FF FF FF FF 0F, and the signed read yields 4294967295 | a five-byte run's low 32 bits read as two's complement, giving -1; shorter runs unchanged | not executed | IoProps.SignedReadOutOfRange | IoProps.S32RoundTrip |
