/**
 * The values the interpreter moves between registers, operand stack and
 * scope stack (avm2/runtime.py together with the Python values the
 * instructions push), and the `get_property` lookups of `ASObject`,
 * `ASString` and `ASArray`.
 */
module Runtime {
  import opened Wrappers

  /**
   * The name half of a property key: the Python values that can be hashed
   * into a dict key. `True` and `False` hash and compare as 1 and 0, so they
   * have no name of their own.
   */
  datatype Name = IntName(i: int) | StrName(s: string) | NoneName | EllipsisName

  /** A property key, the tuple `(namespace, name)`. */
  datatype Key = Key(namespace: string, name: Name)

  /**
   * A value of the interpreter. The last three variants are the instances of
   * `ASObject`, `ASString` and `ASArray` with their dataclass fields.
   */
  datatype Value =
    | Undefined                     // `undefined`, the one `ASUndefined()` instance
    | Null                          // Python `None`
    | Ellipsis                      // Python `...`, the filler of a fresh register list
    | Bool(b: bool)
    | Int(i: int)
    | Str(s: string)
    | List(items: seq<Value>)
    | Object(classIndex: Option<nat>, properties: map<Key, Value>)
    | StringObject(classIndex: Option<nat>, properties: map<Key, Value>, text: string)
    | ArrayObject(classIndex: Option<nat>, properties: map<Key, Value>, elements: seq<Value>)

  /** `ASObject()`: no class and an empty property dict. */
  function NewObject(): (v: Value)
    ensures v.Object? && v.classIndex.None? && v.properties == map[]
  {
    Object(None, map[])
  }

  /** `ASString(value)`: `super().__init__()` leaves the instance fields at their defaults. */
  function NewString(text: string): (v: Value)
    ensures v.StringObject? && v.classIndex.None? && v.properties == map[] && v.text == text
  {
    StringObject(None, map[], text)
  }

  /** `ASArray(value)`. */
  function NewArray(elements: seq<Value>): (v: Value)
    ensures v.ArrayObject? && v.classIndex.None? && v.properties == map[] && v.elements == elements
  {
    ArrayObject(None, map[], elements)
  }

  /**
   * The dict key a value hashes to. Lists and dataclass instances (which
   * define `__eq__` and therefore no `__hash__`) cannot be keys.
   */
  function NameOf(v: Value): (r: Result<Name>)
    ensures r.Err? ==> r.error == TypeError
    ensures r.Ok? <==> !(v.List? || v.Undefined? || v.Object? || v.StringObject? || v.ArrayObject?)
  {
    match v
    case Null => Ok(NoneName)
    case Ellipsis => Ok(EllipsisName)
    case Bool(b) => Ok(IntName(if b then 1 else 0))
    case Int(i) => Ok(IntName(i))
    case Str(s) => Ok(StrName(s))
    case _ => Err(TypeError)
  }

  /** `isinstance(name, int)` holds of ints and of booleans. */
  function IndexOf(v: Value): Option<int> {
    match v
    case Int(i) => Some(i)
    case Bool(b) => Some(if b then 1 else 0)
    case _ => None
  }

  /** `properties[namespace, name]`. */
  function Lookup(properties: map<Key, Value>, namespace: string, name: Value): (r: Result<Value>)
    ensures r.Ok? <==> NameOf(name).Ok? && Key(namespace, NameOf(name).value) in properties
    ensures r.Ok? ==> r.value == properties[Key(namespace, NameOf(name).value)]
    ensures r.Err? ==> r.error == (if NameOf(name).Ok? then KeyError else TypeError)
  {
    var n :- NameOf(name);
    if Key(namespace, n) in properties then Ok(properties[Key(namespace, n)]) else Err(KeyError)
  }

  /** `0 <= name < length` for an int-like `name`. */
  predicate InRange(name: Value, length: nat) {
    IndexOf(name).Some? && 0 <= IndexOf(name).value < length
  }

  /**
   * `obj.get_property(namespace, name)`. `stringProperties` is the class-level
   * table `ASString.properties`, shared by every string. Values that are not
   * `ASObject` instances have no `get_property` attribute.
   */
  function GetProperty(obj: Value, namespace: string, name: Value, stringProperties: map<Key, Value>): Result<Value> {
    match obj
    case Undefined => Lookup(map[], namespace, name)
    case Object(_, properties) => Lookup(properties, namespace, name)
    case StringObject(_, _, text) =>
      if InRange(name, |text|) then Ok(Str([text[IndexOf(name).value]]))
      else Lookup(stringProperties, namespace, name)
    case ArrayObject(_, properties, elements) =>
      if InRange(name, |elements|) then Ok(elements[IndexOf(name).value])
      else Lookup(properties, namespace, name)
    case _ => Err(AttributeError)
  }

  /**
   * An index inside a string is answered with that one character, whatever
   * the property tables hold; every other name is looked up in the class
   * table `ASString.properties`, never in the instance's own dict.
   */
  lemma StringProperty(obj: Value, namespace: string, name: Value, table: map<Key, Value>)
    requires obj.StringObject?
    ensures InRange(name, |obj.text|) ==>
      GetProperty(obj, namespace, name, table) == Ok(Str([obj.text[IndexOf(name).value]]))
    ensures !InRange(name, |obj.text|) ==>
      GetProperty(obj, namespace, name, table) == Lookup(table, namespace, name)
      && GetProperty(StringObject(obj.classIndex, map[], obj.text), namespace, name, table) == GetProperty(obj, namespace, name, table)
  {
  }

  /**
   * An index inside an array is answered with that element; every other name,
   * a negative or too large index included, is looked up in the array's own
   * property dict, and the string table plays no part.
   */
  lemma ArrayProperty(obj: Value, namespace: string, name: Value, table: map<Key, Value>, other: map<Key, Value>)
    requires obj.ArrayObject?
    ensures InRange(name, |obj.elements|) ==>
      GetProperty(obj, namespace, name, table) == Ok(obj.elements[IndexOf(name).value])
    ensures !InRange(name, |obj.elements|) ==>
      GetProperty(obj, namespace, name, table) == Lookup(obj.properties, namespace, name)
    ensures GetProperty(obj, namespace, name, table) == GetProperty(obj, namespace, name, other)
  {
  }

  /**
   * A plain object answers exactly from its own dict: a name it holds gives
   * the stored value, any other hashable name a `KeyError`.
   */
  lemma ObjectProperty(obj: Value, namespace: string, name: Value, table: map<Key, Value>)
    requires obj.Object? && NameOf(name).Ok?
    ensures GetProperty(obj, namespace, name, table).Ok? <==> Key(namespace, NameOf(name).value) in obj.properties
    ensures GetProperty(obj, namespace, name, table).Err? ==> GetProperty(obj, namespace, name, table).error == KeyError
    ensures GetProperty(obj, namespace, name, table).Ok? ==>
      GetProperty(obj, namespace, name, table).value == obj.properties[Key(namespace, NameOf(name).value)]
  {
  }

  /** A fresh object, `undefined` included, has no property at all. */
  lemma NewObjectHasNoProperties(namespace: string, name: Value, table: map<Key, Value>)
    ensures GetProperty(NewObject(), namespace, name, table).Err?
    ensures GetProperty(Undefined, namespace, name, table).Err?
    ensures NameOf(name).Ok? ==> GetProperty(NewObject(), namespace, name, table) == Err(KeyError)
  {
  }

  /** `True` and `1` (and `False` and `0`) name the same property and the same element. */
  lemma BooleanNames(obj: Value, namespace: string, b: bool, table: map<Key, Value>)
    ensures GetProperty(obj, namespace, Bool(b), table) == GetProperty(obj, namespace, Int(if b then 1 else 0), table)
  {
  }
}
