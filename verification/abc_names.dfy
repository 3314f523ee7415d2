/**
 * `ASMultiname.qualified_name` (avm2/abc/types.py): the dotted name of a
 * `Q_NAME` multiname, "namespace.name" with leading and trailing dots removed.
 *
 * Strings are kept as UTF-8 bytes. Removing the character '.' from the ends
 * of a string and removing the byte 0x2E from the ends of its UTF-8 encoding
 * give the same result, because 0x2E never occurs inside a multi-byte
 * sequence.
 */
module AbcNames {
  import opened Wrappers
  import opened Io
  import opened AbcTypes
  import opened AbcDecode

  const DOT: Byte := 0x2E

  /** The text `str(None)`: an f-string renders an absent pool entry as "None". */
  const NONE_TEXT: seq<Byte> := [0x4E, 0x6F, 0x6E, 0x65]

  /** `f'{s}'` for a string pool entry. */
  function Render(s: Option<seq<Byte>>): seq<Byte> {
    match s
    case None => NONE_TEXT
    case Some(bytes) => bytes
  }

  predicate AllDots(s: seq<Byte>) {
    forall i :: 0 <= i < |s| ==> s[i] == DOT
  }

  /** Neither end of `s` is a dot. */
  predicate NoEdgeDots(s: seq<Byte>) {
    s == [] || (s[0] != DOT && s[|s| - 1] != DOT)
  }

  /** `s.lstrip('.')`: the suffix left after every leading dot is removed. */
  function StripLeft(s: seq<Byte>): (r: seq<Byte>)
    ensures |r| <= |s| && r == s[|s| - |r|..]
    ensures AllDots(s[..|s| - |r|])
    ensures r == [] || r[0] != DOT
  {
    if |s| > 0 && s[0] == DOT then StripLeft(s[1..]) else s
  }

  /** `s.rstrip('.')`: the prefix left after every trailing dot is removed. */
  function StripRight(s: seq<Byte>): (r: seq<Byte>)
    ensures |r| <= |s| && r == s[..|r|]
    ensures AllDots(s[|r|..])
    ensures r == [] || r[|r| - 1] != DOT
  {
    if |s| > 0 && s[|s| - 1] == DOT then StripRight(s[..|s| - 1]) else s
  }

  /** `s.strip('.')`. */
  function StripDots(s: seq<Byte>): seq<Byte> {
    StripRight(StripLeft(s))
  }

  /**
   * What `strip('.')` means: the input is a run of dots, the result and a run
   * of dots, and the result neither starts nor ends with a dot. These facts
   * determine the result.
   */
  lemma StripDotsSplits(s: seq<Byte>)
    ensures var r := StripDots(s);
      exists i, j :: 0 <= i <= j <= |s| && r == s[i..j] && AllDots(s[..i]) && AllDots(s[j..])
    ensures NoEdgeDots(StripDots(s))
  {
    var l := StripLeft(s);
    var r := StripRight(l);
    var i := |s| - |l|;
    var j := i + |r|;
    assert r == s[i..j];
    assert s[j..] == l[|r|..];
  }

  /** A string without dots at its ends is left as it is. */
  lemma StripDotsKeeps(s: seq<Byte>)
    requires NoEdgeDots(s)
    ensures StripDots(s) == s
  {
  }

  /** Stripping twice strips nothing more. */
  lemma StripDotsIdempotent(s: seq<Byte>)
    ensures StripDots(StripDots(s)) == StripDots(s)
  {
    StripDotsSplits(s);
    StripDotsKeeps(StripDots(s));
  }

  /** `f'{ns}.{name}'.strip('.')`. */
  function Join(ns: seq<Byte>, name: seq<Byte>): (r: seq<Byte>)
    ensures NoEdgeDots(r)
  {
    StripDotsSplits(ns + [DOT] + name);
    StripDots(ns + [DOT] + name)
  }

  /**
   * Namespace and local name, both non-empty and without edge dots, are
   * joined by exactly one dot.
   */
  lemma JoinKeeps(ns: seq<Byte>, name: seq<Byte>)
    requires ns != [] && name != [] && NoEdgeDots(ns) && NoEdgeDots(name)
    ensures Join(ns, name) == ns + [DOT] + name
  {
    var s := ns + [DOT] + name;
    assert s[0] == ns[0] && s[|s| - 1] == name[|name| - 1];
    StripDotsKeeps(ns + [DOT] + name);
  }

  /** The empty namespace contributes nothing: the result is the local name alone. */
  lemma JoinEmptyNamespace(name: seq<Byte>)
    requires NoEdgeDots(name)
    ensures Join([], name) == name
  {
    assert [] + [DOT] + name == [DOT] + name;
    assert StripLeft([DOT] + name) == StripLeft(name) by {
      assert ([DOT] + name)[1..] == name;
    }
    StripDotsKeeps(name);
  }

  /**
   * `ASMultiname.qualified_name(constant_pool)`: the three asserts in their
   * order, the namespace lookup, and the two string lookups.
   */
  function QualifiedName(m: Multiname, pool: ConstantPool): (r: Result<seq<Byte>>)
    ensures r.Ok? ==> NoEdgeDots(r.value)
  {
    if m.kind != Q_NAME then Err(AssertionError)
    else if m.namespaceIndex.None? || m.namespaceIndex.value == 0 then Err(AssertionError)
    else if m.nameIndex.None? || m.nameIndex.value == 0 then Err(AssertionError)
    else if m.namespaceIndex.value >= |pool.namespaces| then Err(IndexError)
    else
      match pool.namespaces[m.namespaceIndex.value]
      case None => Err(AttributeError)
      case Some(ns) =>
        if ns.nameIndex >= |pool.strings| || m.nameIndex.value >= |pool.strings| then Err(IndexError)
        else Ok(Join(Render(pool.strings[ns.nameIndex]), Render(pool.strings[m.nameIndex.value])))
  }

  /** Only a `Q_NAME` multiname with non-zero namespace and name indices passes the asserts. */
  lemma QualifiedNameAsserts(m: Multiname, pool: ConstantPool)
    ensures QualifiedName(m, pool) == Err(AssertionError) <==>
      m.kind != Q_NAME || m.namespaceIndex.None? || m.namespaceIndex.value == 0
      || m.nameIndex.None? || m.nameIndex.value == 0
  {
  }

  /**
   * In a decoded constant pool every index that passes the asserts and lies
   * inside the pools yields a name, and that name joins the two strings.
   */
  lemma QualifiedNameDefined(m: Multiname, pool: ConstantPool)
    requires PoolDefaults(pool)
    requires m.kind == Q_NAME && m.namespaceIndex.Some? && m.nameIndex.Some?
    requires 0 < m.namespaceIndex.value < |pool.namespaces|
    requires 0 < m.nameIndex.value < |pool.strings|
    requires pool.namespaces[m.namespaceIndex.value].value.nameIndex < |pool.strings|
    ensures QualifiedName(m, pool) == Ok(Join(
      Render(pool.strings[pool.namespaces[m.namespaceIndex.value].value.nameIndex]),
      Render(pool.strings[m.nameIndex.value])))
  {
    assert pool.namespaces[m.namespaceIndex.value] == pool.namespaces[1..][m.namespaceIndex.value - 1];
  }
}
