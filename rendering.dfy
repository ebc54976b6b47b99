/** What one Serialize call appends to the builder and how it leaves the visited set, as pure
    functions of the object graph, the configuration tables, the value, the nesting level, the
    parent member and the visited set on entry. The imperative serializer is proved to follow
    these functions step for step. */
module Rendering {
  import opened Runtime
  import opened Strings
  import opened Configuration
  import opened TypeNames
  import opened Formatting

  /** The effect of a call: the text appended and the visited set afterwards, or an
      ArgumentOutOfRangeException that aborts the whole render. */
  datatype Outcome = Done(text: string, visited: set<Ref>) | Aborted

  function Emit(r: Result<string>, visited: set<Ref>): Outcome {
    match r
    case Ok(s) => Done(s, visited)
    case Thrown(_) => Aborted
  }

  function Then(prefix: string, o: Outcome): Outcome {
    match o
    case Done(s, v) => Done(prefix + s, v)
    case Aborted => Aborted
  }

  /** The builder went from `before` to `after` and the visited set became `visited`, as `o` says;
      `ok` is false exactly when `o` aborts. */
  ghost predicate Emitted(o: Outcome, ok: bool, before: string, after: string, visited: set<Ref>) {
    match o
    case Done(s, v) => ok && after == before + s && visited == v
    case Aborted => !ok
  }

  /** The builder went from `before` to `after` by appending the text of `r`. */
  ghost predicate Wrote(r: Result<string>, ok: bool, before: string, after: string) {
    match r
    case Ok(s) => ok && after == before + s
    case Thrown(_) => !ok
  }

  const NullLine: string := "null" + NewLine
  const ExcludedLine: string := "[Excluded Type]" + NewLine
  const DepthText: string := " превышен уровень вложенности"

  /** "[" + the type's name + suffix + "]" as one line. */
  function Marker(t: TypeDesc, prefix: string, suffix: string): Result<string> {
    match FormatTypeName(t)
    case Ok(name) => Ok(prefix + name + suffix + NewLine)
    case Thrown(e) => Thrown(e)
  }

  function DepthMarker(t: TypeDesc): Result<string> {
    Marker(t, "[", DepthText + "]")
  }

  function CycleMarker(t: TypeDesc): Result<string> {
    Marker(t, "[CyclicRef ", "]")
  }

  /** The header line of a dictionary, sequence or composite object: its type name alone. */
  function HeaderLine(t: TypeDesc): Result<string> {
    match FormatTypeName(t)
    case Ok(name) => Ok(name + NewLine)
    case Thrown(e) => Thrown(e)
  }

  /** TryHandleNullOrExcludedOrDepth applies: null, a value of an excluded runtime type, or the
      nesting limit reached. */
  predicate Guarded(h: Heap, c: Settings, v: Value, level: int)
    requires ValueIn(h, v)
  {
    v.Null? || h[v.r].runtimeType in c.excludedTypes || level >= c.maxNestingLevel
  }

  function GuardText(h: Heap, c: Settings, v: Value, level: int): Result<string>
    requires ValueIn(h, v) && Guarded(h, c, v, level)
  {
    if v.Null? then Ok(NullLine)
    else if h[v.r].runtimeType in c.excludedTypes then Ok(ExcludedLine)
    else DepthMarker(h[v.r].runtimeType)
  }

  /** TryHandleCycle applies: a reference-type object entered before in this call. */
  predicate Revisit(t: TypeDesc, r: Ref, visited: set<Ref>) {
    !t.isValueType && r in visited
  }

  /** Visited.Add on entry; value types are never tracked. */
  function Mark(t: TypeDesc, r: Ref, visited: set<Ref>): set<Ref> {
    if t.isValueType then visited else visited + {r}
  }

  predicate EntriesIn(h: Heap, es: seq<Entry>) {
    forall e | e in es :: ValueIn(h, e.key) && ValueIn(h, e.value)
  }

  predicate ValuesIn(h: Heap, vs: seq<Value>) {
    forall v | v in vs :: ValueIn(h, v)
  }

  predicate MembersIn(h: Heap, ms: seq<Member>) {
    forall m | m in ms :: ReadIn(h, m.read)
  }

  /** Serialize(v, level, parent): the first matching case of null, excluded type, depth limit,
      revisit, custom type formatter, terminal type, dictionary, sequence, composite. */
  function Render(h: Heap, c: Settings, v: Value, level: nat, parent: Option<MemberKey>, visited: set<Ref>): Outcome
    requires Closed(h) && ValueIn(h, v)
    decreases c.maxNestingLevel - level, 3, 0
  {
    if Guarded(h, c, v, level) then Emit(GuardText(h, c, v, level), visited)
    else
      var r := v.r;
      var n := h[r];
      var t := n.runtimeType;
      if Revisit(t, r, visited) then Emit(CycleMarker(t), visited)
      else
        var vis := Mark(t, r, visited);
        if t in c.customTypeSerializers then
          Emit(ApplyTrimming(c.customTypeSerializers[t](h, r), parent, c), vis)
        else if IsTerminal(t) then Emit(FormatScalar(h, r, parent, c), vis)
        else if n.shape.Dictionary? then RenderDictionary(h, c, r, level, vis)
        else if n.shape.Sequence? && t != StringType then RenderSequence(h, c, r, level, vis)
        else RenderComposite(h, c, r, level, vis)
  }

  /** TryHandleDictionary: the header, then a Key line and a Value line per entry. */
  function RenderDictionary(h: Heap, c: Settings, r: Ref, level: nat, visited: set<Ref>): Outcome
    requires Closed(h) && r in h && h[r].shape.Dictionary? && level < c.maxNestingLevel
    decreases c.maxNestingLevel - level, 2, 0
  {
    assert NodeIn(h, h[r]);
    match HeaderLine(h[r].runtimeType)
    case Thrown(_) => Aborted
    case Ok(header) => Then(header, RenderEntries(h, c, h[r].shape.entries, level, visited))
  }

  function RenderEntries(h: Heap, c: Settings, es: seq<Entry>, level: nat, visited: set<Ref>): Outcome
    requires Closed(h) && EntriesIn(h, es) && level < c.maxNestingLevel
    decreases c.maxNestingLevel - level, 1, |es|
  {
    if es == [] then Done("", visited)
    else
      match RenderEntry(h, c, es[0], level, visited)
      case Aborted => Aborted
      case Done(x, v1) => Then(x, RenderEntries(h, c, es[1..], level, v1))
  }

  /** One loop iteration: the key under "Key = ", then the value under "Value = ". */
  function RenderEntry(h: Heap, c: Settings, e: Entry, level: nat, visited: set<Ref>): Outcome
    requires Closed(h) && ValueIn(h, e.key) && ValueIn(h, e.value) && level < c.maxNestingLevel
    decreases c.maxNestingLevel - level, 1, 0
  {
    match Labelled(h, c, e.key, "Key = ", level, visited)
    case Aborted => Aborted
    case Done(k, v1) => Then(k, Labelled(h, c, e.value, "Value = ", level, v1))
  }

  /** The pattern the dictionary and sequence loops share: indentation for level + 1, a tag,
      then the value rendered one level deeper with no parent member. */
  function Labelled(h: Heap, c: Settings, v: Value, tag: string, level: nat, visited: set<Ref>): Outcome
    requires Closed(h) && ValueIn(h, v) && level < c.maxNestingLevel
    decreases c.maxNestingLevel - level, 0, 0
  {
    Then(Tabs(level + 1) + tag, Render(h, c, v, level + 1, None, visited))
  }

  /** TryHandleEnumerable: the header, then an "[i] = " line per element, i counting from 0. */
  function RenderSequence(h: Heap, c: Settings, r: Ref, level: nat, visited: set<Ref>): Outcome
    requires Closed(h) && r in h && h[r].shape.Sequence? && level < c.maxNestingLevel
    decreases c.maxNestingLevel - level, 2, 0
  {
    assert NodeIn(h, h[r]);
    match HeaderLine(h[r].runtimeType)
    case Thrown(_) => Aborted
    case Ok(header) => Then(header, RenderItems(h, c, h[r].shape.items, 0, level, visited))
  }

  function ItemLabel(i: nat): string {
    "[" + NatToString(i) + "] = "
  }

  /** The elements `items`, the first of which has index i. */
  function RenderItems(h: Heap, c: Settings, items: seq<Value>, i: nat, level: nat, visited: set<Ref>): Outcome
    requires Closed(h) && ValuesIn(h, items) && level < c.maxNestingLevel
    decreases c.maxNestingLevel - level, 1, |items|
  {
    if items == [] then Done("", visited)
    else
      match Labelled(h, c, items[0], ItemLabel(i), level, visited)
      case Aborted => Aborted
      case Done(x, v1) => Then(x, RenderItems(h, c, items[1..], i + 1, level, v1))
  }

  /** SerializeComplexObject: the header, then the readable properties, then the fields. */
  function RenderComposite(h: Heap, c: Settings, r: Ref, level: nat, visited: set<Ref>): Outcome
    requires Closed(h) && r in h && h[r].shape.Composite? && level < c.maxNestingLevel
    decreases c.maxNestingLevel - level, 2, 0
  {
    assert NodeIn(h, h[r]);
    match HeaderLine(h[r].runtimeType)
    case Thrown(_) => Aborted
    case Ok(header) =>
      match RenderProperties(h, c, h[r].shape.properties, level, visited)
      case Aborted => Aborted
      case Done(p, v1) => Then(header + p, RenderFields(h, c, h[r].shape.fields, level, v1))
  }

  /** The property loop: a property that cannot be read is passed over. */
  function RenderProperties(h: Heap, c: Settings, ps: seq<Member>, level: nat, visited: set<Ref>): Outcome
    requires Closed(h) && MembersIn(h, ps) && level < c.maxNestingLevel
    decreases c.maxNestingLevel - level, 1, |ps|
  {
    if ps == [] then Done("", visited)
    else if !ps[0].canRead then RenderProperties(h, c, ps[1..], level, visited)
    else
      match RenderMember(h, c, ps[0], level, visited)
      case Aborted => Aborted
      case Done(x, v1) => Then(x, RenderProperties(h, c, ps[1..], level, v1))
  }

  /** The field loop. */
  function RenderFields(h: Heap, c: Settings, fs: seq<Member>, level: nat, visited: set<Ref>): Outcome
    requires Closed(h) && MembersIn(h, fs) && level < c.maxNestingLevel
    decreases c.maxNestingLevel - level, 1, |fs|
  {
    if fs == [] then Done("", visited)
    else
      match RenderMember(h, c, fs[0], level, visited)
      case Aborted => Aborted
      case Done(x, v1) => Then(x, RenderFields(h, c, fs[1..], level, v1))
  }

  /** SerializeMember: nothing for an excluded member or a member of an excluded declared type;
      otherwise the indented "name = " and then either the member formatter's text (on "null"
      for a null or failed read), trimmed and ending in exactly one NewLine, or the rendering of
      the safely read value one level deeper with this member as parent. */
  function RenderMember(h: Heap, c: Settings, m: Member, level: nat, visited: set<Ref>): Outcome
    requires Closed(h) && ReadIn(h, m.read) && level < c.maxNestingLevel
    decreases c.maxNestingLevel - level, 0, 0
  {
    var k := m.key;
    if k in c.excludedMember || k.declaredType in c.excludedTypes then Done("", visited)
    else
      var prefix := Tabs(level + 1) + k.name + " = ";
      var value := SafeGet(m.read);
      if k in c.customMemberSerializers then
        var text := if value.Null? then "null" else c.customMemberSerializers[k](h, value.r);
        match ApplyTrimming(text, Some(k), c)
        case Thrown(_) => Aborted
        case Ok(s) => Done(prefix + TrimLineEnd(s) + NewLine, visited)
      else Then(prefix, Render(h, c, value, level + 1, Some(k), visited))
  }
}
