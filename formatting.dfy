/** The serializer's pure helpers for terminal text: which types are terminal, how scalar text
    is chosen, and how it is trimmed and terminated. */
module Formatting {
  import opened Runtime
  import opened Strings
  import opened Configuration

  function SystemStruct(name: string): TypeDesc {
    TypeDesc("System", name, false, [], true, false, None, CoreLibrary)
  }

  /** The built-in scalar types printed as text rather than walked. */
  const TerminalTypes: set<TypeDesc> := {
    StringType, SystemStruct("DateTime"), SystemStruct("TimeSpan"),
    SystemStruct("Guid"), SystemStruct("Decimal"),
    SystemStruct("Byte"), SystemStruct("SByte"), SystemStruct("Int16"), SystemStruct("UInt16"),
    SystemStruct("Int32"), SystemStruct("UInt32"), SystemStruct("Int64"), SystemStruct("UInt64"),
    SystemStruct("Single"), SystemStruct("Double"), SystemStruct("Boolean"), SystemStruct("Char")
  }

  predicate IsTerminal(t: TypeDesc) {
    t in TerminalTypes || t.isEnum
  }

  /** Every terminal type is a non-generic, non-enum System type, and String is the only reference
      type among them. */
  lemma TerminalTypesAreStringOrStructs(t: TypeDesc)
    requires t in TerminalTypes
    ensures t.ns == "System" && !t.isGeneric && !t.isEnum
    ensures t.isValueType <==> t != StringType
  {
  }

  /** The trim length for text printed under `parent`: the member's own entry if it has one, else
      the entry for the member's declared type, else none. */
  function TrimLimit(parent: Option<MemberKey>, c: Settings): (limit: Option<int>)
    ensures parent.None? ==> limit.None?
    ensures limit.Some? ==>
              (parent.Some? && (parent.value in c.trimmedMembers || parent.value.declaredType in c.trimmedTypes))
    ensures parent.Some? && parent.value in c.trimmedMembers ==> limit == Some(c.trimmedMembers[parent.value])
    ensures parent.Some? && parent.value !in c.trimmedMembers ==>
              limit == (if parent.value.declaredType in c.trimmedTypes
                        then Some(c.trimmedTypes[parent.value.declaredType]) else None)
  {
    match parent
    case None => None
    case Some(m) =>
      if m in c.trimmedMembers then Some(c.trimmedMembers[m])
      else if m.declaredType in c.trimmedTypes then Some(c.trimmedTypes[m.declaredType])
      else None
  }

  /** s cut down to at most n characters. */
  function Truncate(s: string, n: nat): (t: string)
    ensures t <= s
    ensures |t| == if n < |s| then n else |s|
  {
    if n < |s| then s[..n] else s
  }

  /** s with NewLine appended unless it already ends with one. */
  function EnsureNewLine(s: string): (t: string)
    ensures EndsWith(t, NewLine)
    ensures EndsWith(s, NewLine) ==> t == s
    ensures !EndsWith(s, NewLine) ==> t == s + NewLine
  {
    if EndsWith(s, NewLine) then s else s + NewLine
  }

  /** ApplyTrimming: cuts s to the trim length that applies under `parent`, then makes it end with
      a NewLine. A negative length (only StintingPrintConfig can store one) makes the slice throw. */
  function ApplyTrimming(s: string, parent: Option<MemberKey>, c: Settings): (r: Result<string>)
    ensures r.Thrown? <==> TrimLimit(parent, c).Some? && TrimLimit(parent, c).value < 0
    ensures r.Thrown? ==> r.error == ArgumentOutOfRangeException
    ensures r.Ok? && TrimLimit(parent, c).None? ==> r.value == EnsureNewLine(s)
    ensures r.Ok? && TrimLimit(parent, c).Some? ==>
              r.value == EnsureNewLine(Truncate(s, TrimLimit(parent, c).value))
  {
    match TrimLimit(parent, c)
    case None => Ok(EnsureNewLine(s))
    case Some(n) =>
      if n < 0 then Thrown(ArgumentOutOfRangeException)
      else Ok(EnsureNewLine(Truncate(s, n)))
  }

  /** SafeGet: the value a member read returned, or null when the read threw. */
  function SafeGet(rd: Read): (v: Value)
    ensures v.Null? <==> rd.Throws? || rd == Returns(Null)
    ensures rd.Returns? ==> v == rd.value
  {
    match rd
    case Returns(v) => v
    case Throws => Null
  }

  /** The untrimmed text of a terminal object: the custom formatter for its runtime type if any,
      else the string itself, else the culture-specific text when a culture is registered for
      the type and the object is IFormattable, else its ToString(). */
  function ScalarText(h: Heap, r: Ref, c: Settings): string
    requires r in h
  {
    var n := h[r];
    var t := n.runtimeType;
    if t in c.customTypeSerializers then c.customTypeSerializers[t](h, r)
    else if t == StringType then n.text
    else if t in c.culturesForTypes && n.formattable then n.cultured(c.culturesForTypes[t])
    else n.text
  }

  /** FormatScalar: the chosen text, trimmed for `parent`. */
  function FormatScalar(h: Heap, r: Ref, parent: Option<MemberKey>, c: Settings): Result<string>
    requires r in h
  {
    ApplyTrimming(ScalarText(h, r, c), parent, c)
  }
}
