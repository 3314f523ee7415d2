/**
 * The SWF container around ABC byte-code: the bodies of the DoABC,
 * SymbolClass and DefineBinaryData tags (avm2/swf/types.py), and the tag
 * header loop and RECT skip of the SWF parser (avm2/swf/parser.py), after the
 * "Tag format" record header of the SWF File Format Specification.
 *
 * The parser reads a binary stream; the model reads it through the same byte
 * cursor as the ABC decoders: `read(n)` returns at most `n` bytes and
 * `seek(n, SEEK_CUR)` moves the position forward, past the end if need be.
 */
module Swf {
  import opened Wrappers
  import opened Io
  import opened IoProps

  // ---------------------------------------------------------------------------
  // Tag bodies
  // ---------------------------------------------------------------------------

  /** `DoABCTag`: flags, a zero-terminated name, and the ABC file. */
  datatype DoAbcTag = DoAbcTag(flags: nat, name: seq<Byte>, abcFile: seq<Byte>)

  /** `DoABCTag(raw)`: a u32, a zero-terminated string, then everything that is left. */
  function DoAbcAt(raw: seq<Byte>): Result<DoAbcTag> {
    var flags :- U32(raw, 0);
    var name :- Until(raw, flags.next, 0);
    Ok(DoAbcTag(flags.value, name.value, ReadRest(raw, name.next).value))
  }

  /** `DoABCTag.__init__`, reading through a fresh cursor over `raw`. */
  method ParseDoAbc(raw: seq<Byte>) returns (r: Result<DoAbcTag>)
    ensures r == DoAbcAt(raw)
  {
    var reader := new MemoryViewReader(raw);
    var flags := reader.ReadU32();
    if flags.Err? {
      return Err(flags.error);
    }
    var name := reader.ReadString();
    if name.Err? {
      return Err(name.error);
    }
    var abcFile := reader.ReadAll();
    r := Ok(DoAbcTag(flags.value, name.value, abcFile));
  }

  /**
   * The flags are the first four bytes, little-endian; the name runs up to
   * the first zero byte after them; the ABC file is everything after that
   * zero, possibly nothing.
   */
  lemma DoAbcFields(raw: seq<Byte>)
    requires DoAbcAt(raw).Ok?
    ensures 4 <= |raw| && DoAbcAt(raw).value.flags == LittleEndian(raw[..4])
    ensures var t := DoAbcAt(raw).value;
      var end := 4 + |t.name|;
      end < |raw| && raw[4..end] == t.name && raw[end] == 0 && 0 !in t.name && t.abcFile == raw[end + 1..]
  {
    var t := DoAbcAt(raw).value;
    var j := FindFrom(raw, 4, 0).value;
    assert t.name == raw[4..j];
  }

  /** Without four bytes the flags cannot be read; without a zero after them the name cannot. */
  lemma DoAbcErrors(raw: seq<Byte>)
    ensures |raw| < 4 ==> DoAbcAt(raw) == Err(StructError)
    ensures 4 <= |raw| && (forall m :: 4 <= m < |raw| ==> raw[m] != 0) ==> DoAbcAt(raw) == Err(IndexError)
  {
    if 4 <= |raw| && (forall m :: 4 <= m < |raw| ==> raw[m] != 0) {
      assert FindFrom(raw, 4, 0).None?;
    }
  }

  /** Decoding the bytes of flags, name, a zero and an ABC file gives them back. */
  lemma DoAbcRoundTrip(flags: nat, name: seq<Byte>, abcFile: seq<Byte>)
    requires flags < Pow2(32) && 0 !in name
    ensures DoAbcAt(LittleEndianBytes(flags, 4) + name + [0] + abcFile) == Ok(DoAbcTag(flags, name, abcFile))
  {
    var raw := LittleEndianBytes(flags, 4) + name + ([0] + abcFile);
    assert raw == LittleEndianBytes(flags, 4) + name + [0] + abcFile;
    ThreeParts(LittleEndianBytes(flags, 4), name, [0] + abcFile);
    LittleEndianRoundTrip(flags, 4);
    assert raw[4 + |name|..][1..] == raw[4 + |name| + 1..];
    DoAbcFrom(raw, name);
  }

  /** A name that the first zero after the flags ends. */
  lemma DoAbcFrom(raw: seq<Byte>, name: seq<Byte>)
    requires 4 + |name| < |raw| && raw[4..4 + |name|] == name && raw[4 + |name|] == 0 && 0 !in name
    ensures DoAbcAt(raw) == Ok(DoAbcTag(LittleEndian(raw[..4]), name, raw[4 + |name| + 1..]))
  {
    assert raw[..4] == raw[0..0 + 4];
    var end := 4 + |name|;
    forall m | 4 <= m < end
      ensures raw[m] != 0
    {
      assert raw[m] == name[m - 4];
    }
    assert U32(raw, 0) == Ok(Parsed(LittleEndian(raw[..4]), 4));
    assert Until(raw, 4, 0) == Ok(Parsed(name, end + 1));
    assert ReadRest(raw, end + 1).value == raw[end + 1..];
  }

  /** `DefineBinaryDataTag`: a u16 character id, a reserved u32, and the data. */
  datatype BinaryDataTag = BinaryDataTag(tag: nat, reserved: nat, data: seq<Byte>)

  function BinaryDataAt(raw: seq<Byte>): Result<BinaryDataTag> {
    var tag :- U16(raw, 0);
    var reserved :- U32(raw, tag.next);
    Ok(BinaryDataTag(tag.value, reserved.value, ReadRest(raw, reserved.next).value))
  }

  /** `DefineBinaryDataTag.__init__`. */
  method ParseBinaryData(raw: seq<Byte>) returns (r: Result<BinaryDataTag>)
    ensures r == BinaryDataAt(raw)
  {
    var reader := new MemoryViewReader(raw);
    var tag := reader.ReadU16();
    if tag.Err? {
      return Err(tag.error);
    }
    var reserved := reader.ReadU32();
    if reserved.Err? {
      return Err(reserved.error);
    }
    var data := reader.ReadAll();
    r := Ok(BinaryDataTag(tag.value, reserved.value, data));
  }

  /** The tag needs six bytes; the data is everything after them. */
  lemma BinaryDataFields(raw: seq<Byte>)
    ensures BinaryDataAt(raw).Ok? <==> 6 <= |raw|
    ensures BinaryDataAt(raw).Err? ==> BinaryDataAt(raw).error == StructError
    ensures 6 <= |raw| ==>
      BinaryDataAt(raw) == Ok(BinaryDataTag(LittleEndian(raw[..2]), LittleEndian(raw[2..6]), raw[6..]))
  {
    if 6 <= |raw| {
      assert U16(raw, 0) == Ok(Parsed(LittleEndian(raw[..2]), 2));
      assert U32(raw, 2) == Ok(Parsed(LittleEndian(raw[2..6]), 6));
      assert ReadRest(raw, 6).value == raw[6..];
    }
  }

  /** Decoding the bytes of an id, a reserved word and data gives them back. */
  lemma BinaryDataRoundTrip(tag: nat, reserved: nat, data: seq<Byte>)
    requires tag < Pow2(16) && reserved < Pow2(32)
    ensures BinaryDataAt(LittleEndianBytes(tag, 2) + LittleEndianBytes(reserved, 4) + data)
      == Ok(BinaryDataTag(tag, reserved, data))
  {
    var raw := LittleEndianBytes(tag, 2) + LittleEndianBytes(reserved, 4) + data;
    ThreeParts(LittleEndianBytes(tag, 2), LittleEndianBytes(reserved, 4), data);
    LittleEndianRoundTrip(tag, 2);
    LittleEndianRoundTrip(reserved, 4);
    BinaryDataFields(raw);
  }

  /** The three parts of a concatenation are its slices at their lengths. */
  lemma ThreeParts(a: seq<Byte>, b: seq<Byte>, c: seq<Byte>)
    ensures (a + b + c)[..|a|] == a && (a + b + c)[|a|..|a| + |b|] == b && (a + b + c)[|a| + |b|..] == c
  {
  }

  /** One `(id, name)` entry of a `SymbolClass` tag. */
  datatype Symbol = Symbol(id: nat, name: seq<Byte>)

  /** One entry at `pos`: a u16 id, then a zero-terminated name. */
  function SymbolAt(raw: seq<Byte>, pos: nat): Result<Parsed<Symbol>> {
    var id :- U16(raw, pos);
    var name :- Until(raw, id.next, 0);
    Ok(Parsed(Symbol(id.value, name.value), name.next))
  }

  /** `n` more entries from `pos`, read after the entries `done`. */
  function SymbolsFrom(raw: seq<Byte>, pos: nat, n: nat, done: seq<Symbol>): Result<Parsed<seq<Symbol>>>
    decreases n
  {
    if n == 0 then Ok(Parsed(done, pos))
    else
      var first :- SymbolAt(raw, pos);
      SymbolsFrom(raw, first.next, n - 1, done + [first.value])
  }

  /** `{id: name for (id, name) in symbols}`: a later entry overwrites an earlier one with the same id. */
  function Table(symbols: seq<Symbol>): map<nat, seq<Byte>> {
    if symbols == [] then map[]
    else Table(symbols[..|symbols| - 1])[symbols[|symbols| - 1].id := symbols[|symbols| - 1].name]
  }

  /** `SymbolsTag(raw)`: a u16 count, then that many entries, collected into a dict. */
  function SymbolsAt(raw: seq<Byte>): Result<map<nat, seq<Byte>>> {
    var count :- U16(raw, 0);
    var symbols :- SymbolsFrom(raw, count.next, count.value, []);
    Ok(Table(symbols.value))
  }

  /** One iteration of the comprehension: the id, then the name. */
  method ReadSymbol(reader: MemoryViewReader) returns (r: Result<Symbol>)
    modifies reader
    ensures r.Ok? ==> SymbolAt(reader.buffer, old(reader.position)) == Ok(Parsed(r.value, reader.position))
    ensures r.Err? ==> SymbolAt(reader.buffer, old(reader.position)) == Err(r.error)
  {
    var id := reader.ReadU16();
    if id.Err? {
      return Err(id.error);
    }
    var name := reader.ReadString();
    if name.Err? {
      return Err(name.error);
    }
    r := Ok(Symbol(id.value, name.value));
  }

  /** `SymbolsTag.__init__`: a u16 count, then the dict comprehension. */
  method ParseSymbols(raw: seq<Byte>) returns (r: Result<map<nat, seq<Byte>>>)
    ensures r == SymbolsAt(raw)
  {
    var reader := new MemoryViewReader(raw);
    var count := reader.ReadU16();
    if count.Err? {
      return Err(count.error);
    }
    r := ReadTable(reader, count.value);
  }

  /** The dict comprehension: read the id, then the name, `count` times, a later id overwriting an earlier one. */
  method ReadTable(reader: MemoryViewReader, count: nat) returns (r: Result<map<nat, seq<Byte>>>)
    modifies reader
    ensures var spec := SymbolsFrom(reader.buffer, old(reader.position), count, []);
      r == if spec.Ok? then Ok(Table(spec.value.value)) else Err(spec.error)
  {
    ghost var start := reader.position;
    var tags: map<nat, seq<Byte>> := map[];
    ghost var done: seq<Symbol> := [];
    var i := 0;
    while i < count
      invariant 0 <= i <= count
      invariant tags == Table(done)
      invariant SymbolsFrom(reader.buffer, start, count, []) == SymbolsFrom(reader.buffer, reader.position, count - i, done)
    {
      var sym := ReadSymbol(reader);
      if sym.Err? {
        return Err(sym.error);
      }
      assert (done + [sym.value])[..|done|] == done;
      tags := tags[sym.value.id := sym.value.name];
      done := done + [sym.value];
      i := i + 1;
    }
    r := Ok(tags);
  }

  /**
   * The dict holds exactly the ids that occur, each with the name of its last
   * occurrence.
   */
  lemma {:induction false} TableLastWins(symbols: seq<Symbol>, id: nat)
    ensures id in Table(symbols) <==> exists i :: 0 <= i < |symbols| && symbols[i].id == id
    ensures id in Table(symbols) ==>
      exists i :: 0 <= i < |symbols| && symbols[i].id == id && Table(symbols)[id] == symbols[i].name
        && forall j :: i < j < |symbols| ==> symbols[j].id != id
  {
    if symbols != [] {
      var init := symbols[..|symbols| - 1];
      var last := symbols[|symbols| - 1];
      TableLastWins(init, id);
      if last.id == id {
        assert symbols[|symbols| - 1].id == id;
      } else if id in Table(init) {
        var i :| 0 <= i < |init| && init[i].id == id && Table(init)[id] == init[i].name
          && forall j :: i < j < |init| ==> init[j].id != id;
        assert symbols[i] == init[i];
        forall j | i < j < |symbols|
          ensures symbols[j].id != id
        {
          if j < |init| {
            assert symbols[j] == init[j];
          }
        }
      } else {
        forall i | 0 <= i < |symbols|
          ensures symbols[i].id != id
        {
          if i < |init| {
            assert symbols[i] == init[i];
          }
        }
      }
    }
  }

  /** Reading `n` entries after `done` gives `done` and exactly `n` more. */
  lemma {:induction false} SymbolsCount(raw: seq<Byte>, pos: nat, n: nat, done: seq<Symbol>)
    ensures var r := SymbolsFrom(raw, pos, n, done);
      r.Ok? ==> |r.value.value| == |done| + n && r.value.value[..|done|] == done
    decreases n
  {
    if n > 0 && SymbolAt(raw, pos).Ok? {
      var first := SymbolAt(raw, pos).value;
      SymbolsCount(raw, first.next, n - 1, done + [first.value]);
      var r := SymbolsFrom(raw, first.next, n - 1, done + [first.value]);
      if r.Ok? {
        assert r.value.value[..|done|] == (r.value.value[..|done| + 1])[..|done|];
      }
    }
  }

  // ---------------------------------------------------------------------------
  // The tag stream
  // ---------------------------------------------------------------------------

  const END: nat := 0

  /** A record header: the tag type, the body length, and the position of the body. */
  datatype Header = Header(tagType: nat, length: nat, body: nat)

  /**
   * `code_length` is a little-endian u16 with the type in its upper ten bits
   * and the length in its lower six; the length 0x3F announces a u32 length.
   */
  function HeaderAt(buf: seq<Byte>, pos: nat): Result<Header> {
    var code :- U16(buf, pos);
    if code.value % 0x40 == 0x3F then
      var length :- U32(buf, code.next);
      Ok(Header(code.value / 0x40, length.value, length.next))
    else Ok(Header(code.value / 0x40, code.value % 0x40, code.next))
  }

  /** The record header of a tag of type `tagType` with a `length`-byte body. */
  function EncodeHeader(tagType: nat, length: nat): seq<Byte> {
    if length < 0x3F then LittleEndianBytes(tagType * 0x40 + length, 2)
    else LittleEndianBytes(tagType * 0x40 + 0x3F, 2) + LittleEndianBytes(length, 4)
  }

  /** A short header holds lengths below 0x3F; a long one any u32 length. Both decode to what was encoded. */
  lemma HeaderRoundTrip(buf: seq<Byte>, pos: nat, tagType: nat, length: nat)
    requires tagType < 0x400 && length < Pow2(32) && At(buf, pos, EncodeHeader(tagType, length))
    ensures HeaderAt(buf, pos) == Ok(Header(tagType, length, pos + |EncodeHeader(tagType, length)|))
    ensures |EncodeHeader(tagType, length)| == if length < 0x3F then 2 else 6
  {
    Pow2Values();
    var low := if length < 0x3F then length else 0x3F;
    var code := tagType * 0x40 + low;
    DivModUnique(code, 0x40, tagType, low);
    var e := EncodeHeader(tagType, length);
    if length < 0x3F {
      FixedLERoundTrip(buf, pos, 2, code);
    } else {
      AtSplit(buf, pos, LittleEndianBytes(code, 2), LittleEndianBytes(length, 4));
      FixedLERoundTrip(buf, pos, 2, code);
      FixedLERoundTrip(buf, pos + 2, 4, length);
    }
  }

  datatype Tag = Tag(tagType: nat, raw: seq<Byte>)

  /**
   * What the `read_tags` generator produces when consumed to its end: the
   * tags it yields, and the error it raises if it does not reach `END`.
   */
  datatype TagRun = TagRun(tags: seq<Tag>, error: Option<Error>)

  /** A bound on the loop: the bytes left, or 0 once the position is past the end. */
  function Remaining(buf: seq<Byte>, pos: nat): nat {
    if pos <= |buf| then |buf| - pos + 1 else 0
  }

  /**
   * `read_tags(io)` from `pos`, after the tags `yielded`: `known` is the set
   * of values of the `TagType` enumeration, the only ones
   * `TagType(code_length >> 6)` accepts.
   */
  function TagsFrom(buf: seq<Byte>, pos: nat, known: set<nat>, yielded: seq<Tag>): TagRun
    decreases Remaining(buf, pos)
  {
    match HeaderAt(buf, pos)
    case Err(e) => TagRun(yielded, Some(e))
    case Ok(h) =>
      if h.tagType !in known then TagsFrom(buf, h.body + h.length, known, yielded)
      else
        var raw := ReadBytes(buf, h.body, h.length);
        var tags := yielded + [Tag(h.tagType, raw.value)];
        if h.tagType == END then TagRun(tags, None)
        else TagsFrom(buf, raw.next, known, tags)
  }

  /** The header read of one loop iteration: `code_length`, then the u32 length if it is announced. */
  method ReadHeader(io: MemoryViewReader) returns (h: Result<Header>)
    modifies io
    ensures h == HeaderAt(io.buffer, old(io.position))
    ensures h.Ok? ==> io.position == h.value.body
  {
    var code := io.ReadU16();
    if code.Err? {
      return Err(code.error);
    }
    var length := code.value % 0x40;
    if length == 0x3F {
      var long := io.ReadU32();
      if long.Err? {
        return Err(long.error);
      }
      length := long.value;
    }
    h := Ok(Header(code.value / 0x40, length, io.position));
  }

  /** A header read moves past at least the two bytes of `code_length`, and not past the end. */
  lemma HeaderAdvances(buf: seq<Byte>, pos: nat)
    requires HeaderAt(buf, pos).Ok?
    ensures pos + 2 <= HeaderAt(buf, pos).value.body <= |buf|
  {
  }

  /** `read_tags`, consumed to its end: the `while True` loop over record headers. */
  method ReadTags(io: MemoryViewReader, known: set<nat>) returns (tags: seq<Tag>, error: Option<Error>)
    modifies io
    ensures TagRun(tags, error) == TagsFrom(io.buffer, old(io.position), known, [])
  {
    tags := [];
    while true
      invariant TagsFrom(io.buffer, old(io.position), known, []) == TagsFrom(io.buffer, io.position, known, tags)
      decreases Remaining(io.buffer, io.position)
    {
      ghost var before := io.position;
      var h := ReadHeader(io);
      if h.Err? {
        return tags, Some(h.error);
      }
      HeaderAdvances(io.buffer, before);
      if h.value.tagType !in known {
        var _ := io.Skip(h.value.length);
      } else {
        var raw := io.Read(h.value.length);
        tags := tags + [Tag(h.value.tagType, raw)];
        if h.value.tagType == END {
          return tags, None;
        }
      }
    }
  }

  /** The tags already yielded stay at the front of the run. */
  lemma {:induction false} KeepsYielded(buf: seq<Byte>, pos: nat, known: set<nat>, yielded: seq<Tag>)
    ensures var run := TagsFrom(buf, pos, known, yielded);
      |yielded| <= |run.tags| && run.tags[..|yielded|] == yielded
    decreases Remaining(buf, pos)
  {
    match HeaderAt(buf, pos)
    case Err(e) =>
    case Ok(h) =>
      if h.tagType !in known {
        KeepsYielded(buf, h.body + h.length, known, yielded);
      } else if h.tagType != END {
        var raw := ReadBytes(buf, h.body, h.length);
        var tags := yielded + [Tag(h.tagType, raw.value)];
        KeepsYielded(buf, raw.next, known, tags);
        var run := TagsFrom(buf, raw.next, known, tags);
        assert run.tags[..|yielded|] == run.tags[..|tags|][..|yielded|];
      }
  }

  /**
   * The run stops right after `END`: no tag but the last is `END`, and a run
   * that ends without an error ends with `END`.
   */
  lemma {:induction false} StopsAfterEnd(buf: seq<Byte>, pos: nat, known: set<nat>, yielded: seq<Tag>)
    requires forall i :: 0 <= i < |yielded| ==> yielded[i].tagType != END
    ensures var run := TagsFrom(buf, pos, known, yielded);
      (forall i :: 0 <= i < |run.tags| - 1 ==> run.tags[i].tagType != END)
      && (run.error.None? ==> run.tags != [] && run.tags[|run.tags| - 1].tagType == END)
    decreases Remaining(buf, pos)
  {
    match HeaderAt(buf, pos)
    case Err(e) =>
      assert TagsFrom(buf, pos, known, yielded) == TagRun(yielded, Some(e));
    case Ok(h) =>
      if h.tagType !in known {
        StopsAfterEnd(buf, h.body + h.length, known, yielded);
        assert TagsFrom(buf, pos, known, yielded) == TagsFrom(buf, h.body + h.length, known, yielded);
      } else {
        var raw := ReadBytes(buf, h.body, h.length);
        var tags := yielded + [Tag(h.tagType, raw.value)];
        if h.tagType == END {
          assert TagsFrom(buf, pos, known, yielded) == TagRun(tags, None);
          forall i | 0 <= i < |tags| - 1 ensures tags[i].tagType != END {
            assert tags[i] == yielded[i];
          }
        } else {
          forall i | 0 <= i < |tags| ensures tags[i].tagType != END {
            if i < |yielded| { assert tags[i] == yielded[i]; }
          }
          StopsAfterEnd(buf, raw.next, known, tags);
          assert TagsFrom(buf, pos, known, yielded) == TagsFrom(buf, raw.next, known, tags);
        }
      }
  }

  /** Every tag yielded has a type of the `TagType` enumeration. */
  lemma {:induction false} YieldsKnownTypes(buf: seq<Byte>, pos: nat, known: set<nat>, yielded: seq<Tag>)
    requires forall i :: 0 <= i < |yielded| ==> yielded[i].tagType in known
    ensures var run := TagsFrom(buf, pos, known, yielded);
      forall i :: 0 <= i < |run.tags| ==> run.tags[i].tagType in known
    decreases Remaining(buf, pos)
  {
    match HeaderAt(buf, pos)
    case Err(e) =>
    case Ok(h) =>
      if h.tagType !in known {
        YieldsKnownTypes(buf, h.body + h.length, known, yielded);
        assert TagsFrom(buf, pos, known, yielded) == TagsFrom(buf, h.body + h.length, known, yielded);
      } else if h.tagType != END {
        var raw := ReadBytes(buf, h.body, h.length);
        var tags := yielded + [Tag(h.tagType, raw.value)];
        YieldsKnownTypes(buf, raw.next, known, tags);
        assert TagsFrom(buf, pos, known, yielded) == TagsFrom(buf, raw.next, known, tags);
      } else {
        var tags := yielded + [Tag(h.tagType, ReadBytes(buf, h.body, h.length).value)];
        assert forall i :: 0 <= i < |tags| ==> tags[i].tagType in known;
      }
  }

  /**
   * A tag of an unknown type is skipped without being yielded; a known one
   * is yielded first, with the next `length` bytes, fewer at the end of the stream.
   */
  lemma TagHeaderDecides(buf: seq<Byte>, pos: nat, known: set<nat>)
    requires HeaderAt(buf, pos).Ok?
    ensures var h := HeaderAt(buf, pos).value;
      var run := TagsFrom(buf, pos, known, []);
      (h.tagType !in known ==> run == TagsFrom(buf, h.body + h.length, known, []))
      && (h.tagType in known ==>
            run.tags != [] && run.tags[0] == Tag(h.tagType, ReadBytes(buf, h.body, h.length).value)
            && |run.tags[0].raw| <= h.length)
  {
    var h := HeaderAt(buf, pos).value;
    if h.tagType in known && h.tagType != END {
      var raw := ReadBytes(buf, h.body, h.length);
      var tag := Tag(h.tagType, raw.value);
      assert [] + [tag] == [tag];
      KeepsYielded(buf, raw.next, known, [tag]);
      var run := TagsFrom(buf, raw.next, known, [tag]);
      assert run.tags[0] == run.tags[..1][0];
    }
  }

  /** At the end of the stream, before an `END` tag, the header read fails with `struct.error`. */
  lemma TruncatedStream(buf: seq<Byte>, pos: nat, known: set<nat>)
    requires |buf| < pos + 2
    ensures TagsFrom(buf, pos, known, []) == TagRun([], Some(StructError))
  {
  }

  /**
   * `skip_rect(io)`: read the byte holding `Nbits`, then seek past the rest of
   * the RECT record. Unpacking the empty read at the end of the stream raises
   * `ValueError`.
   */
  method SkipRect(io: MemoryViewReader) returns (error: Option<Error>)
    modifies io
    ensures old(io.position) < |io.buffer| ==>
      error == None && io.position == old(io.position) + 1 + RectTail(io.buffer[old(io.position)])
    ensures |io.buffer| <= old(io.position) ==> error == Some(ValueError)
  {
    var first := io.Read(1);
    if |first| != 1 {
      return Some(ValueError);
    }
    var nBits: int := first[0];
    var _ := io.Skip(((nBits / 8) * 4 - 3 + 8) / 8);
    error := None;
  }
}
