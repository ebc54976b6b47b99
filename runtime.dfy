/** The runtime world the printer walks: type descriptors, member descriptors and an
    object graph. Reflection (GetProperties, GetFields, GetValue, IsValueType, IsEnum) is
    abstracted here as data: a type carries its flags, and every object carries the ordered
    members reflection would enumerate for it. */
module Runtime {

  datatype Option<+T> = None | Some(value: T)

  /** The two exception types the core can raise. */
  datatype Exception = ArgumentException | ArgumentOutOfRangeException

  /** A value or the exception that was thrown instead of producing it. */
  datatype Result<+T> = Ok(value: T) | Thrown(error: Exception)

  /** A runtime type (System.Type). The runtime keeps one Type object per type, so two
      descriptors are the same type exactly when they are equal in every field. `name` is the
      runtime's `Type.Name`, so a generic definition's name carries its arity suffix ("List`1")
      and an array's name its rank suffix ("Int32[,]"). `enclosing` is the `DeclaringType` of a
      nested type and `assembly` the assembly that defines it: they tell apart types such as
      `Outer1.Inner` and `Outer2.Inner`, or two same-named types from different assemblies, that
      agree in namespace, name, arguments and flags. The type-name formatting never reads
      them. */
  datatype TypeDesc = TypeDesc(
    ns: string,
    name: string,
    isGeneric: bool,
    args: seq<TypeDesc>,
    isValueType: bool,
    isEnum: bool,
    enclosing: Option<TypeDesc>,
    assembly: string)

  /** The assembly that defines the runtime's own System types. */
  const CoreLibrary := "System.Private.CoreLib"

  /** System.String: the one reference type among the printer's terminal types. */
  const StringType: TypeDesc := TypeDesc("System", "String", false, [], false, false, None, CoreLibrary)

  datatype MemberKind = Property | Field

  /** A MemberInfo, identified by all four of its fields: declaring type, name, kind and declared
      type (PropertyType or FieldType). A declaration fixes its declared type, so the fourth field
      never tells apart two members that agree on the first three; it is carried because type
      exclusion and type trim lengths look it up. Two members that share a name have different
      keys whenever their declaring types are different types, nesting and assembly included. */
  datatype MemberKey = MemberKey(
    declaringType: TypeDesc,
    name: string,
    kind: MemberKind,
    declaredType: TypeDesc)

  /** Object identity. */
  type Ref = nat

  datatype Value = Null | Obj(r: Ref)

  /** The outcome of reading a member: the value, or an exception from the getter. */
  datatype Read = Returns(value: Value) | Throws

  /** A public instance member as reflection reports it for one object. */
  datatype Member = Member(key: MemberKey, canRead: bool, read: Read)

  datatype Culture = Culture(name: string)

  datatype Entry = Entry(key: Value, value: Value)

  /** What the object exposes besides its ToString: the non-generic IDictionary interface, the
      IEnumerable interface, or neither (then only its members). */
  datatype Shape =
    | Dictionary(entries: seq<Entry>)
    | Sequence(items: seq<Value>)
    | Composite(properties: seq<Member>, fields: seq<Member>)

  /** An object. `text` is what its ToString() returns (a null result is recorded as the empty
      text, which is what the printer then uses); `formattable` says whether it implements
      IFormattable, and `cultured` is its IFormattable.ToString(null, culture). */
  datatype Node = Node(
    runtimeType: TypeDesc,
    text: string,
    formattable: bool,
    cultured: Culture -> string,
    shape: Shape)

  type Heap = map<Ref, Node>

  /** A custom formatter registered with `Using`: it sees the object graph and the object. */
  type Formatter = (Heap, Ref) -> string

  predicate ValueIn(h: Heap, v: Value) {
    v.Obj? ==> v.r in h
  }

  predicate ReadIn(h: Heap, rd: Read) {
    rd.Returns? ==> ValueIn(h, rd.value)
  }

  /** Every reference a node holds points into the heap. */
  predicate NodeIn(h: Heap, n: Node) {
    match n.shape
    case Dictionary(es) => forall e | e in es :: ValueIn(h, e.key) && ValueIn(h, e.value)
    case Sequence(items) => forall v | v in items :: ValueIn(h, v)
    case Composite(ps, fs) =>
      (forall m | m in ps :: ReadIn(h, m.read)) && (forall m | m in fs :: ReadIn(h, m.read))
  }

  /** The heap is closed: no reference dangles. */
  predicate Closed(h: Heap) {
    forall r {:trigger h[r]} | r in h :: NodeIn(h, h[r])
  }
}
