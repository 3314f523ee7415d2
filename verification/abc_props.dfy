/**
 * What the decoders of avm2/abc/types.py promise about the records they
 * build: which optional fields are present for which kind or flag, how many
 * entries each array has, and round trips for the records whose encoding is
 * written out here.
 */
module AbcProps {
  import opened Wrappers
  import opened Io
  import opened IoProps
  import opened AbcTypes
  import opened AbcDecode

  /** The values a `read_int()` can produce: below 2^35. */
  predicate IsU30(v: nat) {
    v < 0x8_0000_0000
  }

  lemma U30Bound(buf: seq<Byte>, pos: nat)
    ensures U30(buf, pos).Ok? ==> IsU30(U30(buf, pos).value.value) && pos < U30(buf, pos).value.next
  {
    Pow2Values();
    if pos <= |buf| {
      VarIntShape(buf, pos);
    }
  }

  /**
   * Reading a complete run `e` that begins a run of bytes gives the value it
   * spells and stops where `rest` begins.
   */
  lemma U30At(buf: seq<Byte>, pos: nat, e: seq<Byte>, rest: seq<Byte>)
    requires IsRun(e) && At(buf, pos, e + rest)
    ensures U30(buf, pos) == Ok(Parsed(Groups(e), pos + |e|))
    ensures At(buf, pos + |e|, rest)
  {
    AtSplit(buf, pos, e, rest);
    RunRoundTrip(buf, pos, e);
  }

  /** The encoding of a `read_int()` value is a complete run that spells it. */
  lemma U30Encoding(v: nat)
    requires IsU30(v)
    ensures IsRun(EncodeVarUInt(v)) && Groups(EncodeVarUInt(v)) == v
  {
    Pow2Values();
    EncodingIsRun(v);
  }

  lemma ByteAt(buf: seq<Byte>, pos: nat, b: Byte, rest: seq<Byte>)
    requires At(buf, pos, [b] + rest)
    ensures U8(buf, pos) == Ok(Parsed(b, pos + 1))
    ensures At(buf, pos + 1, rest)
  {
    AtSplit(buf, pos, [b], rest);
  }

  // ---------------------------------------------------------------------------
  // Arrays and pools
  // ---------------------------------------------------------------------------

  predicate AllU30(vs: seq<nat>) {
    forall i :: 0 <= i < |vs| ==> IsU30(vs[i])
  }

  /**
   * `read_array_with_default`: entry 0 is the default, not read from the
   * buffer, and the pool has `max(count, 1)` entries.
   */
  lemma PoolShape<T>(buf: seq<Byte>, pos: nat, item: (seq<Byte>, nat) -> Result<Parsed<T>>, default: T)
    requires U30(buf, pos).Ok?
    ensures Pool(buf, pos, item, default).Ok? ==>
      var p := Pool(buf, pos, item, default).value.value;
      var c := U30(buf, pos).value.value;
      |p| >= 1 && p[0] == default && |p| == (if c == 0 then 1 else c)
  {
  }

  // ---------------------------------------------------------------------------
  // Namespaces and namespace sets
  // ---------------------------------------------------------------------------

  function EncodeNamespace(ns: Namespace): seq<Byte> {
    [ns.kind] + EncodeVarUInt(ns.nameIndex)
  }

  /** `ASNamespace` accepts exactly the encodings of namespaces with a known kind. */
  lemma NamespaceRoundTrip(buf: seq<Byte>, pos: nat, ns: Namespace)
    requires IsNamespaceKind(ns.kind) && IsU30(ns.nameIndex) && At(buf, pos, EncodeNamespace(ns))
    ensures NamespaceAt(buf, pos) == Ok(Parsed(ns, pos + |EncodeNamespace(ns)|))
  {
    var e := EncodeVarUInt(ns.nameIndex);
    U30Encoding(ns.nameIndex);
    assert EncodeNamespace(ns) == [ns.kind] + (e + []);
    ByteAt(buf, pos, ns.kind, e + []);
    U30At(buf, pos + 1, e, []);
  }

  lemma NamespaceErrors(buf: seq<Byte>, pos: nat)
    ensures pos >= |buf| ==> NamespaceAt(buf, pos) == Err(IndexError)
    ensures pos < |buf| && !IsNamespaceKind(buf[pos]) ==> NamespaceAt(buf, pos) == Err(ValueError)
    ensures NamespaceAt(buf, pos).Ok? ==> IsNamespaceKind(NamespaceAt(buf, pos).value.value.kind)
  {
  }

  // ---------------------------------------------------------------------------
  // Multinames
  // ---------------------------------------------------------------------------

  predicate HasNamespaceField(kind: Byte) { kind == Q_NAME || kind == Q_NAME_A }

  predicate HasNameField(kind: Byte) {
    kind in {Q_NAME, Q_NAME_A, RTQ_NAME, RTQ_NAME_A, MULTINAME, MULTINAME_A}
  }

  predicate HasNamespaceSetField(kind: Byte) {
    kind in {MULTINAME, MULTINAME_A, MULTINAME_L, MULTINAME_LA}
  }

  predicate OptU30(o: Option<nat>) {
    o.Some? ==> IsU30(o.value)
  }

  /** A multiname as `ASMultiname` builds it: exactly the fields its kind reads are set. */
  predicate WellFormedMultiname(m: Multiname) {
    IsMultinameKind(m.kind)
    && (m.namespaceIndex.Some? <==> HasNamespaceField(m.kind))
    && (m.nameIndex.Some? <==> HasNameField(m.kind))
    && (m.namespaceSetIndex.Some? <==> HasNamespaceSetField(m.kind))
    && (m.qNameIndex.Some? <==> m.kind == TYPE_NAME)
    && (m.typeIndices.Some? <==> m.kind == TYPE_NAME)
    && OptU30(m.namespaceIndex) && OptU30(m.nameIndex) && OptU30(m.namespaceSetIndex) && OptU30(m.qNameIndex)
    && (m.typeIndices.Some? ==> IsU30(|m.typeIndices.value|) && AllU30(m.typeIndices.value))
  }

  lemma {:induction false} U30sBound(buf: seq<Byte>, pos: nat, n: nat)
    ensures ArrayN(buf, pos, n, U30).Ok? ==> AllU30(ArrayN(buf, pos, n, U30).value.value)
  {
    if n > 0 {
      U30sBound(buf, pos, n - 1);
      var init := ArrayN(buf, pos, n - 1, U30);
      if init.Ok? {
        U30Bound(buf, init.value.next);
      }
    }
  }

  lemma U30ListBound(buf: seq<Byte>, pos: nat)
    ensures Array(buf, pos, U30).Ok? ==>
      IsU30(|Array(buf, pos, U30).value.value|) && AllU30(Array(buf, pos, U30).value.value)
  {
    U30Bound(buf, pos);
    if U30(buf, pos).Ok? {
      U30sBound(buf, U30(buf, pos).value.next, U30(buf, pos).value.value);
    }
  }

  /** Every multiname `ASMultiname` decodes is well formed; an unknown kind byte is a ValueError. */
  lemma MultinameShape(buf: seq<Byte>, pos: nat)
    ensures MultinameAt(buf, pos).Ok? ==> WellFormedMultiname(MultinameAt(buf, pos).value.value)
    ensures pos >= |buf| ==> MultinameAt(buf, pos) == Err(IndexError)
    ensures pos < |buf| && !IsMultinameKind(buf[pos]) ==> MultinameAt(buf, pos) == Err(ValueError)
  {
    if pos < |buf| && IsMultinameKind(buf[pos]) {
      var kind := buf[pos];
      if kind == Q_NAME || kind == Q_NAME_A || kind == MULTINAME || kind == MULTINAME_A {
        TwoFieldShape(buf, pos);
      } else if kind == TYPE_NAME {
        TypeNameShape(buf, pos);
      } else {
        OneFieldShape(buf, pos);
      }
    }
  }

  lemma TwoFieldShape(buf: seq<Byte>, pos: nat)
    requires pos < |buf|
    requires buf[pos] == Q_NAME || buf[pos] == Q_NAME_A || buf[pos] == MULTINAME || buf[pos] == MULTINAME_A
    ensures MultinameAt(buf, pos).Ok? ==> WellFormedMultiname(MultinameAt(buf, pos).value.value)
  {
    U30Bound(buf, pos + 1);
    var first := U30(buf, pos + 1);
    if first.Ok? {
      U30Bound(buf, first.value.next);
    }
  }

  lemma OneFieldShape(buf: seq<Byte>, pos: nat)
    requires pos < |buf|
    requires buf[pos] == RTQ_NAME || buf[pos] == RTQ_NAME_A || buf[pos] == RTQ_NAME_L || buf[pos] == RTQ_NAME_LA
      || buf[pos] == MULTINAME_L || buf[pos] == MULTINAME_LA
    ensures MultinameAt(buf, pos).Ok? ==> WellFormedMultiname(MultinameAt(buf, pos).value.value)
  {
    U30Bound(buf, pos + 1);
  }

  lemma TypeNameShape(buf: seq<Byte>, pos: nat)
    requires pos < |buf| && buf[pos] == TYPE_NAME
    ensures MultinameAt(buf, pos).Ok? ==> WellFormedMultiname(MultinameAt(buf, pos).value.value)
  {
    U30Bound(buf, pos + 1);
    var first := U30(buf, pos + 1);
    if first.Ok? {
      U30ListBound(buf, first.value.next);
    }
  }

  /**
   * The order in which `ASMultiname` reads the fields of each kind: after the
   * kind byte come the u30 values `x` (and `y`, and for TypeName the
   * count-prefixed list `types`) at consecutive positions.
   */
  lemma MultinameFieldOrder(buf: seq<Byte>, pos: nat, x: nat, y: nat, types: seq<nat>, p1: nat, p2: nat, p3: nat)
    requires pos < |buf| && IsMultinameKind(buf[pos])
    requires U30(buf, pos + 1) == Ok(Parsed(x, p1))
    requires U30(buf, p1) == Ok(Parsed(y, p2))
    requires Array(buf, p1, U30) == Ok(Parsed(types, p3))
    ensures var k := buf[pos];
      MultinameAt(buf, pos) == Ok(
        if k == Q_NAME || k == Q_NAME_A then Parsed(Multiname(k, Some(x), Some(y), None, None, None), p2)
        else if k == RTQ_NAME || k == RTQ_NAME_A then Parsed(Multiname(k, None, Some(x), None, None, None), p1)
        else if k == RTQ_NAME_L || k == RTQ_NAME_LA then Parsed(Multiname(k, None, None, None, None, None), pos + 1)
        else if k == MULTINAME || k == MULTINAME_A then Parsed(Multiname(k, None, Some(x), Some(y), None, None), p2)
        else if k == MULTINAME_L || k == MULTINAME_LA then Parsed(Multiname(k, None, None, Some(x), None, None), p1)
        else Parsed(Multiname(k, None, None, None, Some(x), Some(types)), p3))
  {
  }

  /** The encodings of u30 values, one after the other. */
  function EncodeU30s(vs: seq<nat>): seq<Byte> {
    if vs == [] then [] else EncodeU30s(vs[..|vs| - 1]) + EncodeVarUInt(vs[|vs| - 1])
  }

  /** `read_int()` over a complete run yields its value and the position just past it. */
  lemma ReadsRun(buf: seq<Byte>, pos: nat, e: seq<Byte>, v: nat, next: nat)
    requires IsRun(e) && Groups(e) == v && next == pos + |e| && At(buf, pos, e)
    ensures U30(buf, pos) == Ok(Parsed(v, next))
  {
    RunRoundTrip(buf, pos, e);
  }

  /** `read_array(reader, read_int, n)` reads back `n` u30 values from their encodings. */
  lemma {:induction false} U30sRoundTrip(buf: seq<Byte>, pos: nat, vs: seq<nat>, next: nat)
    requires AllU30(vs) && At(buf, pos, EncodeU30s(vs)) && next == pos + |EncodeU30s(vs)|
    ensures ArrayN(buf, pos, |vs|, U30) == Ok(Parsed(vs, next))
    decreases |vs|
  {
    if vs != [] {
      var init, last := vs[..|vs| - 1], vs[|vs| - 1];
      var a, e := EncodeU30s(init), EncodeVarUInt(last);
      var p := pos + |a|;
      assert EncodeU30s(vs) == a + e;
      AtSplit(buf, pos, a, e);
      assert AllU30(init) by {
        forall i | 0 <= i < |init| ensures IsU30(init[i]) {
          assert init[i] == vs[i];
        }
      }
      U30sRoundTrip(buf, pos, init, p);
      U30sStep(buf, pos, vs, p, next);
    }
  }

  /** The last value of the list, read after the others. */
  lemma U30sStep(buf: seq<Byte>, pos: nat, vs: seq<nat>, p: nat, next: nat)
    requires |vs| > 0 && IsU30(vs[|vs| - 1])
    requires ArrayN(buf, pos, |vs| - 1, U30) == Ok(Parsed(vs[..|vs| - 1], p))
    requires At(buf, p, EncodeVarUInt(vs[|vs| - 1])) && next == p + |EncodeVarUInt(vs[|vs| - 1])|
    ensures ArrayN(buf, pos, |vs|, U30) == Ok(Parsed(vs, next))
  {
    var last := vs[|vs| - 1];
    U30Encoding(last);
    ReadsRun(buf, p, EncodeVarUInt(last), last, next);
    SnocSplit(vs);
    ArrayNSnoc(buf, pos, vs, vs[..|vs| - 1], last, p, next);
  }

  lemma SnocSplit(vs: seq<nat>)
    requires |vs| > 0
    ensures vs == vs[..|vs| - 1] + [vs[|vs| - 1]]
  {
  }

  /** One more item after `n - 1` of them makes `n`. */
  lemma ArrayNSnoc(buf: seq<Byte>, pos: nat, vs: seq<nat>, init: seq<nat>, last: nat, p: nat, next: nat)
    requires |vs| > 0 && vs == init + [last]
    requires ArrayN(buf, pos, |vs| - 1, U30) == Ok(Parsed(init, p))
    requires U30(buf, p) == Ok(Parsed(last, next))
    ensures ArrayN(buf, pos, |vs|, U30) == Ok(Parsed(vs, next))
  {
  }

  /** `read_array(reader, read_int)`: the count, then the values, read back. */
  lemma U30ListRoundTrip(buf: seq<Byte>, pos: nat, vs: seq<nat>, next: nat)
    requires IsU30(|vs|) && AllU30(vs)
    requires At(buf, pos, EncodeVarUInt(|vs|) + EncodeU30s(vs))
    requires next == pos + |EncodeVarUInt(|vs|) + EncodeU30s(vs)|
    ensures Array(buf, pos, U30) == Ok(Parsed(vs, next))
  {
    var c, l := EncodeVarUInt(|vs|), EncodeU30s(vs);
    var p := pos + |c|;
    AtSplit(buf, pos, c, l);
    U30Encoding(|vs|);
    ReadsRun(buf, pos, c, |vs|, p);
    U30sRoundTrip(buf, p, vs, next);
  }

  /** The encoding of an optional u30 field: nothing when it is absent. */
  function EncodeOptU30(o: Option<nat>): seq<Byte> {
    if o.Some? then EncodeVarUInt(o.value) else []
  }

  /**
   * The encoding of a multiname: the kind byte, then its fields in the order
   * `ASMultiname` reads them. Absent fields contribute nothing, so each kind
   * gets exactly its own fields.
   */
  function EncodeMultiname(m: Multiname): seq<Byte> {
    [m.kind] + EncodeOptU30(m.namespaceIndex) + EncodeOptU30(m.nameIndex)
      + EncodeOptU30(m.namespaceSetIndex) + EncodeOptU30(m.qNameIndex)
      + (if m.typeIndices.Some? then EncodeVarUInt(|m.typeIndices.value|) + EncodeU30s(m.typeIndices.value) else [])
  }

  /** `ASMultiname` reads back every multiname it can build, of every kind. */
  lemma MultinameRoundTrip(buf: seq<Byte>, pos: nat, m: Multiname)
    requires WellFormedMultiname(m) && At(buf, pos, EncodeMultiname(m))
    ensures MultinameAt(buf, pos) == Ok(Parsed(m, pos + |EncodeMultiname(m)|))
  {
    if HasNamespaceField(m.kind) || m.kind == MULTINAME || m.kind == MULTINAME_A {
      TwoFieldRoundTrip(buf, pos, m);
    } else {
      OtherRoundTrip(buf, pos, m);
    }
  }

  /** `MultinameRoundTrip` for the kinds with two u30 fields. */
  lemma TwoFieldRoundTrip(buf: seq<Byte>, pos: nat, m: Multiname)
    requires WellFormedMultiname(m) && At(buf, pos, EncodeMultiname(m))
    requires HasNamespaceField(m.kind) || m.kind == MULTINAME || m.kind == MULTINAME_A
    ensures MultinameAt(buf, pos) == Ok(Parsed(m, pos + |EncodeMultiname(m)|))
  {
    var k := m.kind;
    var enc, r := EncodeMultiname(m), Parsed(m, pos + |EncodeMultiname(m)|);
    if HasNamespaceField(k) {
      var a, b := EncodeVarUInt(m.namespaceIndex.value), EncodeVarUInt(m.nameIndex.value);
      assert enc == [k] + a + b;
      U30Encoding(m.namespaceIndex.value);
      U30Encoding(m.nameIndex.value);
      TwoFieldRuns(buf, pos, m, m.namespaceIndex.value, m.nameIndex.value, a, b, enc, r);
    } else {
      var a, b := EncodeVarUInt(m.nameIndex.value), EncodeVarUInt(m.namespaceSetIndex.value);
      assert enc == [k] + a + b;
      U30Encoding(m.nameIndex.value);
      U30Encoding(m.namespaceSetIndex.value);
      TwoFieldRuns(buf, pos, m, m.nameIndex.value, m.namespaceSetIndex.value, a, b, enc, r);
    }
  }

  /** `MultinameRoundTrip` for the kinds with at most one u30 field, and TypeName. */
  lemma OtherRoundTrip(buf: seq<Byte>, pos: nat, m: Multiname)
    requires WellFormedMultiname(m) && At(buf, pos, EncodeMultiname(m))
    requires !(HasNamespaceField(m.kind) || m.kind == MULTINAME || m.kind == MULTINAME_A)
    ensures MultinameAt(buf, pos) == Ok(Parsed(m, pos + |EncodeMultiname(m)|))
  {
    var k := m.kind;
    var enc, r := EncodeMultiname(m), Parsed(m, pos + |EncodeMultiname(m)|);
    if k == RTQ_NAME || k == RTQ_NAME_A {
      var a := EncodeVarUInt(m.nameIndex.value);
      assert enc == [k] + a;
      U30Encoding(m.nameIndex.value);
      OneFieldRuns(buf, pos, m, m.nameIndex.value, a, enc, r);
    } else if k == MULTINAME_L || k == MULTINAME_LA {
      var a := EncodeVarUInt(m.namespaceSetIndex.value);
      assert enc == [k] + a;
      U30Encoding(m.namespaceSetIndex.value);
      OneFieldRuns(buf, pos, m, m.namespaceSetIndex.value, a, enc, r);
    } else if k == TYPE_NAME {
      var types := m.typeIndices.value;
      var a, l := EncodeVarUInt(m.qNameIndex.value), EncodeVarUInt(|types|) + EncodeU30s(types);
      assert enc == [k] + a + l;
      U30Encoding(m.qNameIndex.value);
      TypeNameRuns(buf, pos, m, a, l, enc, r);
    } else {
      assert enc == [k] + [];
      ByteAt(buf, pos, k, []);
    }
  }

  /** The kind byte, then the two u30 fields of a QName or a Multiname. */
  lemma TwoFieldRuns(buf: seq<Byte>, pos: nat, m: Multiname, x: nat, y: nat, a: seq<Byte>, b: seq<Byte>,
                     enc: seq<Byte>, r: Parsed<Multiname>)
    requires m == (if HasNamespaceField(m.kind) then Multiname(m.kind, Some(x), Some(y), None, None, None)
                   else Multiname(m.kind, None, Some(x), Some(y), None, None))
    requires HasNamespaceField(m.kind) || m.kind == MULTINAME || m.kind == MULTINAME_A
    requires IsRun(a) && Groups(a) == x && IsRun(b) && Groups(b) == y
    requires enc == [m.kind] + a + b && At(buf, pos, enc) && r == Parsed(m, pos + |enc|)
    ensures MultinameAt(buf, pos) == Ok(r)
  {
    var p1 := pos + 1;
    var p2 := p1 + |a|;
    var next := r.next;
    AtSplitAt(buf, pos, [m.kind] + a, b, p2);
    KindByteAt(buf, pos, m.kind, a, p1);
    ReadsTwoRuns(buf, p1, a, x, p2, b, y, next);
    TwoFieldOrder(buf, pos, m, x, y, p1, p2, next);
  }

  /** `AtSplit`, with the position where the second piece begins given by name. */
  lemma AtSplitAt(buf: seq<Byte>, pos: nat, a: seq<Byte>, b: seq<Byte>, mid: nat)
    requires At(buf, pos, a + b) && mid == pos + |a|
    ensures At(buf, pos, a) && At(buf, mid, b)
  {
    AtSplit(buf, pos, a, b);
  }

  lemma KindByteAt(buf: seq<Byte>, pos: nat, k: Byte, rest: seq<Byte>, p1: nat)
    requires At(buf, pos, [k] + rest) && p1 == pos + 1
    ensures U8(buf, pos) == Ok(Parsed(k, p1)) && At(buf, p1, rest)
  {
    ByteAt(buf, pos, k, rest);
  }

  lemma TwoFieldOrder(buf: seq<Byte>, pos: nat, m: Multiname, x: nat, y: nat, p1: nat, p2: nat, next: nat)
    requires m == (if HasNamespaceField(m.kind) then Multiname(m.kind, Some(x), Some(y), None, None, None)
                   else Multiname(m.kind, None, Some(x), Some(y), None, None))
    requires HasNamespaceField(m.kind) || m.kind == MULTINAME || m.kind == MULTINAME_A
    requires U8(buf, pos) == Ok(Parsed(m.kind, p1))
    requires U30(buf, p1) == Ok(Parsed(x, p2)) && U30(buf, p2) == Ok(Parsed(y, next))
    ensures MultinameAt(buf, pos) == Ok(Parsed(m, next))
  {
  }

  /** The kind byte, then the one u30 field of an RTQName or a MultinameL. */
  lemma OneFieldRuns(buf: seq<Byte>, pos: nat, m: Multiname, x: nat, a: seq<Byte>, enc: seq<Byte>, r: Parsed<Multiname>)
    requires m == (if m.kind == RTQ_NAME || m.kind == RTQ_NAME_A then Multiname(m.kind, None, Some(x), None, None, None)
                   else Multiname(m.kind, None, None, Some(x), None, None))
    requires m.kind in {RTQ_NAME, RTQ_NAME_A, MULTINAME_L, MULTINAME_LA}
    requires IsRun(a) && Groups(a) == x
    requires enc == [m.kind] + a && At(buf, pos, enc) && r == Parsed(m, pos + |enc|)
    ensures MultinameAt(buf, pos) == Ok(r)
  {
    var p1 := pos + 1;
    var next := r.next;
    KindByteAt(buf, pos, m.kind, a, p1);
    ReadsRun(buf, p1, a, x, next);
  }

  /** The kind byte, the u30 `qname` and the count-prefixed u30 list of a TypeName. */
  lemma TypeNameRuns(buf: seq<Byte>, pos: nat, m: Multiname, a: seq<Byte>, l: seq<Byte>, enc: seq<Byte>, r: Parsed<Multiname>)
    requires WellFormedMultiname(m) && m.kind == TYPE_NAME
    requires IsRun(a) && Groups(a) == m.qNameIndex.value
    requires l == EncodeVarUInt(|m.typeIndices.value|) + EncodeU30s(m.typeIndices.value)
    requires enc == [m.kind] + a + l && At(buf, pos, enc) && r == Parsed(m, pos + |enc|)
    ensures MultinameAt(buf, pos) == Ok(r)
  {
    var p1 := pos + 1;
    var p2 := p1 + |a|;
    var next := r.next;
    AtSplitAt(buf, pos, [m.kind] + a, l, p2);
    KindByteAt(buf, pos, m.kind, a, p1);
    ReadsRun(buf, p1, a, m.qNameIndex.value, p2);
    U30ListRoundTrip(buf, p2, m.typeIndices.value, next);
  }



  // ---------------------------------------------------------------------------
  // Methods, metadata, traits
  // ---------------------------------------------------------------------------

  /**
   * `ASMethod`: one parameter type per parameter; options iff HAS_OPTIONAL;
   * parameter names, one per parameter, iff HAS_PARAM_NAMES.
   */
  lemma MethodShape(buf: seq<Byte>, pos: nat)
    ensures MethodAt(buf, pos).Ok? ==>
      var m := MethodAt(buf, pos).value.value;
      |m.paramTypeIndices| == m.paramCount
      && (m.options.Some? <==> HasFlag(m.flags, HAS_OPTIONAL))
      && (m.paramNameIndices.Some? <==> HasFlag(m.flags, HAS_PARAM_NAMES))
      && (m.paramNameIndices.Some? ==> |m.paramNameIndices.value| == m.paramCount)
  {
    var count := U30(buf, pos);
    if count.Ok? {
      var returnType := U30(buf, count.value.next);
      if returnType.Ok? {
        var types := ArrayN(buf, returnType.value.next, count.value.value, U30);
        if types.Ok? {
          var name := U30(buf, types.value.next);
          if name.Ok? {
            var flags := U8(buf, name.value.next);
            if flags.Ok? {
              OptionsFlag(buf, flags.value.next, flags.value.value);
              var options := OptionsAt(buf, flags.value.next, flags.value.value);
              if options.Ok? {
                ParamNamesFlag(buf, options.value.next, flags.value.value, count.value.value);
              }
            }
          }
        }
      }
    }
  }

  lemma OptionsFlag(buf: seq<Byte>, pos: nat, flags: Byte)
    ensures OptionsAt(buf, pos, flags).Ok? ==> (OptionsAt(buf, pos, flags).value.value.Some? <==> HasFlag(flags, HAS_OPTIONAL))
  {
  }

  lemma ParamNamesFlag(buf: seq<Byte>, pos: nat, flags: Byte, n: nat)
    ensures ParamNamesAt(buf, pos, flags, n).Ok? ==>
      var names := ParamNamesAt(buf, pos, flags, n).value.value;
      (names.Some? <==> HasFlag(flags, HAS_PARAM_NAMES)) && (names.Some? ==> |names.value| == n)
  {
  }

  /** An option's constant kind byte is one `ConstantKind` defines. */
  lemma OptionDetailKind(buf: seq<Byte>, pos: nat)
    ensures OptionDetailAt(buf, pos).Ok? ==> IsConstantKind(OptionDetailAt(buf, pos).value.value.kind)
    ensures (U30(buf, pos).Ok? && U30(buf, pos).value.next < |buf|
      && !IsConstantKind(buf[U30(buf, pos).value.next])) ==> OptionDetailAt(buf, pos) == Err(ValueError)
  {
  }

  /** `ASItem` reads the key index, then the value index. */
  lemma ItemFieldOrder(buf: seq<Byte>, pos: nat, item: Item, p1: nat, p2: nat)
    requires U30(buf, pos) == Ok(Parsed(item.keyIndex, p1))
    requires U30(buf, p1) == Ok(Parsed(item.valueIndex, p2))
    ensures ItemAt(buf, pos) == Ok(Parsed(item, p2))
  {
  }

  function EncodeItem(item: Item): seq<Byte> {
    EncodeVarUInt(item.keyIndex) + EncodeVarUInt(item.valueIndex)
  }

  /** `ASItem` reads back every item from its encoding. */
  lemma ItemRoundTrip(buf: seq<Byte>, pos: nat, item: Item)
    requires IsU30(item.keyIndex) && IsU30(item.valueIndex) && At(buf, pos, EncodeItem(item))
    ensures ItemAt(buf, pos) == Ok(Parsed(item, pos + |EncodeItem(item)|))
  {
    var a, b := EncodeVarUInt(item.keyIndex), EncodeVarUInt(item.valueIndex);
    U30Encoding(item.keyIndex);
    U30Encoding(item.valueIndex);
    ItemRuns(buf, pos, item, a, b, EncodeItem(item), Parsed(item, pos + |EncodeItem(item)|));
  }

  lemma ItemRuns(buf: seq<Byte>, pos: nat, item: Item, a: seq<Byte>, b: seq<Byte>, enc: seq<Byte>, r: Parsed<Item>)
    requires IsRun(a) && Groups(a) == item.keyIndex && IsRun(b) && Groups(b) == item.valueIndex
    requires enc == a + b && At(buf, pos, enc) && r == Parsed(item, pos + |enc|)
    ensures ItemAt(buf, pos) == Ok(r)
  {
    var p1 := pos + |a|;
    var next := r.next;
    AtSplitAt(buf, pos, a, b, p1);
    ReadsRun(buf, pos, a, item.keyIndex, p1);
    ReadsRun(buf, p1, b, item.valueIndex, next);
    ItemFieldOrder(buf, pos, item, p1, next);
  }

  /** The payload a trait carries is the one its kind names. */
  predicate PayloadMatchesKind(t: Trait) {
    DataMatchesKind(t.data, t.kind)
  }

  predicate DataMatchesKind(data: TraitData, kind: nat) {
    (data.TraitSlot? <==> kind == TRAIT_SLOT || kind == TRAIT_CONST)
    && (data.TraitClass? <==> kind == TRAIT_CLASS)
    && (data.TraitFunction? <==> kind == TRAIT_FUNCTION)
    && (data.TraitMethod? <==> kind == TRAIT_METHOD || kind == TRAIT_GETTER || kind == TRAIT_SETTER)
  }

  lemma TraitDataKind(buf: seq<Byte>, pos: nat, kind: nat)
    requires IsTraitKind(kind)
    ensures TraitDataAt(buf, pos, kind).Ok? ==> DataMatchesKind(TraitDataAt(buf, pos, kind).value.value, kind)
  {
  }

  lemma TraitMetadataFlag(buf: seq<Byte>, pos: nat, attributes: nat)
    ensures TraitMetadataAt(buf, pos, attributes).Ok? ==>
      (TraitMetadataAt(buf, pos, attributes).value.value.Some? <==> HasFlag(attributes, ATTR_METADATA))
  {
  }

  /**
   * `ASTrait`: the kind is the low nibble and the attributes the high nibble
   * of the byte after the name; a kind above CONST is refused.
   */
  lemma TraitShape(buf: seq<Byte>, pos: nat)
    requires U30(buf, pos).Ok? && U30(buf, pos).value.next < |buf|
    ensures TraitAt(buf, pos).Ok? ==>
      var t := TraitAt(buf, pos).value.value;
      t.kind + 0x10 * t.attributes == buf[U30(buf, pos).value.next]
      && IsTraitKind(t.kind) && t.attributes < 0x10
    ensures buf[U30(buf, pos).value.next] % 0x10 > TRAIT_CONST ==> TraitAt(buf, pos) == Err(ValueError)
  {
    var at := U30(buf, pos).value.next;
    if TraitAt(buf, pos).Ok? {
      TraitAtParts(buf, pos, at, buf[at] % 0x10, buf[at] / 0x10);
    }
  }

  /** The payload that follows the kind is the one the kind calls for. */
  lemma TraitPayload(buf: seq<Byte>, pos: nat)
    requires U30(buf, pos).Ok? && U30(buf, pos).value.next < |buf|
    ensures TraitAt(buf, pos).Ok? ==> PayloadMatchesKind(TraitAt(buf, pos).value.value)
  {
    var at := U30(buf, pos).value.next;
    if TraitAt(buf, pos).Ok? {
      TraitAtParts(buf, pos, at, buf[at] % 0x10, buf[at] / 0x10);
      TraitDataKind(buf, at + 1, buf[at] % 0x10);
    }
  }

  /** The metadata indices are read iff the METADATA attribute is set. */
  lemma TraitMetadata(buf: seq<Byte>, pos: nat)
    requires U30(buf, pos).Ok? && U30(buf, pos).value.next < |buf|
    ensures TraitAt(buf, pos).Ok? ==>
      var t := TraitAt(buf, pos).value.value;
      t.metadata.Some? <==> HasFlag(t.attributes, ATTR_METADATA)
  {
    var at := U30(buf, pos).value.next;
    var kind := buf[at] % 0x10;
    if TraitAt(buf, pos).Ok? {
      TraitAtParts(buf, pos, at, kind, buf[at] / 0x10);
      TraitMetadataFlag(buf, TraitDataAt(buf, at + 1, kind).value.next, buf[at] / 0x10);
    }
  }

  /** A trait read successfully is its name, the two nibbles, the payload and the metadata. */
  lemma TraitAtParts(buf: seq<Byte>, pos: nat, at: nat, kind: nat, attributes: nat)
    requires U30(buf, pos).Ok? && at == U30(buf, pos).value.next && at < |buf|
    requires kind == buf[at] % 0x10 && attributes == buf[at] / 0x10 && TraitAt(buf, pos).Ok?
    ensures IsTraitKind(kind) && TraitDataAt(buf, at + 1, kind).Ok?
    ensures TraitMetadataAt(buf, TraitDataAt(buf, at + 1, kind).value.next, attributes).Ok?
    ensures TraitAt(buf, pos).value.value == Trait(U30(buf, pos).value.value, kind, attributes,
      TraitDataAt(buf, at + 1, kind).value.value,
      TraitMetadataAt(buf, TraitDataAt(buf, at + 1, kind).value.next, attributes).value.value)
  {
  }

  /** `ASTraitSlot`: the value kind byte is present iff the value index is not 0, and then it is a known kind. */
  lemma TraitSlotShape(buf: seq<Byte>, pos: nat)
    ensures TraitSlotAt(buf, pos).Ok? ==>
      var s := TraitSlotAt(buf, pos).value.value;
      s.TraitSlot? && (s.vkind.Some? <==> s.vindex != 0) && (s.vkind.Some? ==> IsConstantKind(s.vkind.value))
  {
  }

  // ---------------------------------------------------------------------------
  // Instances, bodies, exceptions, the file
  // ---------------------------------------------------------------------------

  /** `ASInstance`: the protected namespace is read iff the PROTECTED_NS flag is set. */
  lemma InstanceShape(buf: seq<Byte>, pos: nat)
    ensures InstanceAt(buf, pos).Ok? ==>
      var i := InstanceAt(buf, pos).value.value;
      i.protectedNamespaceIndex.Some? <==> HasFlag(i.flags, CLASS_PROTECTED_NS)
  {
  }

  /** `ASException` reads from, to, target, type and variable name, in that order. */
  lemma ExceptionFieldOrder(buf: seq<Byte>, pos: nat, x: ExceptionInfo, p1: nat, p2: nat, p3: nat, p4: nat, p5: nat)
    requires U30(buf, pos) == Ok(Parsed(x.from, p1)) && U30(buf, p1) == Ok(Parsed(x.to, p2))
    requires U30(buf, p2) == Ok(Parsed(x.target, p3)) && U30(buf, p3) == Ok(Parsed(x.excTypeIndex, p4))
    requires U30(buf, p4) == Ok(Parsed(x.varNameIndex, p5))
    ensures ExceptionAt(buf, pos) == Ok(Parsed(x, p5))
  {
  }

  function EncodeException(x: ExceptionInfo): seq<Byte> {
    EncodeVarUInt(x.from) + EncodeVarUInt(x.to) + EncodeVarUInt(x.target)
      + EncodeVarUInt(x.excTypeIndex) + EncodeVarUInt(x.varNameIndex)
  }

  /** `ASException` reads back every exception record from its encoding. */
  lemma ExceptionRoundTrip(buf: seq<Byte>, pos: nat, x: ExceptionInfo)
    requires IsU30(x.from) && IsU30(x.to) && IsU30(x.target) && IsU30(x.excTypeIndex) && IsU30(x.varNameIndex)
    requires At(buf, pos, EncodeException(x))
    ensures ExceptionAt(buf, pos) == Ok(Parsed(x, pos + |EncodeException(x)|))
  {
    var a, b, c := EncodeVarUInt(x.from), EncodeVarUInt(x.to), EncodeVarUInt(x.target);
    var d, e := EncodeVarUInt(x.excTypeIndex), EncodeVarUInt(x.varNameIndex);
    ExceptionEncodingRuns(x);
    ExceptionRuns(buf, pos, x, a, b, c, d, e, EncodeException(x), Parsed(x, pos + |EncodeException(x)|));
  }

  lemma ExceptionEncodingRuns(x: ExceptionInfo)
    requires IsU30(x.from) && IsU30(x.to) && IsU30(x.target) && IsU30(x.excTypeIndex) && IsU30(x.varNameIndex)
    ensures IsRun(EncodeVarUInt(x.from)) && Groups(EncodeVarUInt(x.from)) == x.from
    ensures IsRun(EncodeVarUInt(x.to)) && Groups(EncodeVarUInt(x.to)) == x.to
    ensures IsRun(EncodeVarUInt(x.target)) && Groups(EncodeVarUInt(x.target)) == x.target
    ensures IsRun(EncodeVarUInt(x.excTypeIndex)) && Groups(EncodeVarUInt(x.excTypeIndex)) == x.excTypeIndex
    ensures IsRun(EncodeVarUInt(x.varNameIndex)) && Groups(EncodeVarUInt(x.varNameIndex)) == x.varNameIndex
  {
    U30Encoding(x.from);
    U30Encoding(x.to);
    U30Encoding(x.target);
    U30Encoding(x.excTypeIndex);
    U30Encoding(x.varNameIndex);
  }

  lemma ExceptionRuns(buf: seq<Byte>, pos: nat, x: ExceptionInfo,
                      a: seq<Byte>, b: seq<Byte>, c: seq<Byte>, d: seq<Byte>, e: seq<Byte>, enc: seq<Byte>,
                      r: Parsed<ExceptionInfo>)
    requires IsRun(a) && Groups(a) == x.from && IsRun(b) && Groups(b) == x.to
    requires IsRun(c) && Groups(c) == x.target && IsRun(d) && Groups(d) == x.excTypeIndex
    requires IsRun(e) && Groups(e) == x.varNameIndex
    requires enc == a + b + c + d + e && At(buf, pos, enc) && r == Parsed(x, pos + |enc|)
    ensures ExceptionAt(buf, pos) == Ok(r)
  {
    var p1 := pos + |a|;
    var p2 := p1 + |b|;
    var p3 := p2 + |c|;
    var p4 := p3 + |d|;
    var next := r.next;
    FivePieces(buf, pos, a, b, c, d, e, enc, p1, p2, p3, p4, next);
    ReadsTwoRuns(buf, pos, a, x.from, p1, b, x.to, p2);
    ReadsTwoRuns(buf, p2, c, x.target, p3, d, x.excTypeIndex, p4);
    ReadsRun(buf, p4, e, x.varNameIndex, next);
    ExceptionFieldOrder(buf, pos, x, p1, p2, p3, p4, next);
  }

  lemma ReadsTwoRuns(buf: seq<Byte>, pos: nat, a: seq<Byte>, u: nat, p1: nat, b: seq<Byte>, v: nat, p2: nat)
    requires IsRun(a) && Groups(a) == u && p1 == pos + |a| && At(buf, pos, a)
    requires IsRun(b) && Groups(b) == v && p2 == p1 + |b| && At(buf, p1, b)
    ensures U30(buf, pos) == Ok(Parsed(u, p1)) && U30(buf, p1) == Ok(Parsed(v, p2))
  {
    ReadsRun(buf, pos, a, u, p1);
    ReadsRun(buf, p1, b, v, p2);
  }

  /** Five pieces laid out one after the other. */
  lemma FivePieces(buf: seq<Byte>, pos: nat, a: seq<Byte>, b: seq<Byte>, c: seq<Byte>, d: seq<Byte>, e: seq<Byte>,
                   enc: seq<Byte>, p1: nat, p2: nat, p3: nat, p4: nat, next: nat)
    requires enc == a + b + c + d + e && At(buf, pos, enc)
    requires p1 == pos + |a| && p2 == p1 + |b| && p3 == p2 + |c| && p4 == p3 + |d|
    requires next == pos + |enc|
    ensures At(buf, pos, a) && At(buf, p1, b) && At(buf, p2, c) && At(buf, p3, d) && At(buf, p4, e)
    ensures next == p4 + |e|
  {
    AtSplit(buf, pos, a + b + c + d, e);
    AtSplit(buf, pos, a + b + c, d);
    AtSplit(buf, pos, a + b, c);
    AtSplit(buf, pos, a, b);
  }

  /**
   * `ASMethodBody`: the code is the `code_length` bytes after the length
   * field, cut short only where the buffer ends.
   */
  lemma MethodBodyCode(buf: seq<Byte>, pos: nat)
    requires BodyHeaderAt(buf, pos).Ok? && U30(buf, BodyHeaderAt(buf, pos).value.next).Ok?
    ensures MethodBodyAt(buf, pos).Ok? ==>
      var length := U30(buf, BodyHeaderAt(buf, pos).value.next).value;
      var code := MethodBodyAt(buf, pos).value.value.code;
      |code| <= length.value
      && (|code| < length.value ==> length.next + |code| == |buf|)
      && length.next + |code| <= |buf| && code == buf[length.next..length.next + |code|]
  {
  }
}
