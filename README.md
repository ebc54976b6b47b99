# ObjectPrinting in Dafny

A model of the ObjectPrinting library's core. The library turns any object graph into an
indented, line-per-value text. The model covers these parts:

- **Configuration registry.** `PrintingConfig` holds the tables: excluded types and members,
  trim lengths per member and per type, cultures per type, custom formatters per type and per
  member, and the nesting limit (5 by default).
- **Fluent handles.** `MemberPrintingConfig` and `StintingPrintConfig` fill those tables.
- **Per-call context.** `SerializationContext` holds the builder and the identity set of visited
  objects.
- **Serializer.** It walks the object graph. For each value it takes the first case that applies:
  1. `null`;
  2. an excluded type;
  3. the nesting limit;
  4. a repeated reference (`[CyclicRef T]`);
  5. a custom type formatter;
  6. a terminal scalar;
  7. a dictionary (`Key = ` / `Value = ` lines);
  8. a sequence (`[i] = ` lines);
  9. otherwise, an object printed a member at a time.

Reflection is abstracted as data. A runtime type is a `TypeDesc` carrying its namespace, its
name, its generic arguments, the IsValueType and IsEnum flags, its enclosing type and its
assembly; two descriptors are the same type exactly when they agree in all of these. An object
is a `Node` in a heap `map<Ref, Node>`.
A node carries its `ToString` text, its `IFormattable` behaviour and its shape:
- a dictionary's entries;
- an enumerable's items;
- or the public properties and fields, in the order reflection enumerates them (no particular
  order is promised), each with the outcome of its read.

Formatter delegates are functions `(Heap, Ref) -> string`.

The printing algorithm is specified twice:
- **Pure functions** (module `Rendering`). For a value, a level, a parent member and the visited
  set on entry, they give the text appended and the visited set afterwards. They also cover the
  `ArgumentOutOfRangeException` the code can raise mid-walk.
- **Imperative methods** (module `Serializer`). There is one method per C# method that writes
  to the builder or the context, plus four methods that carry a loop or a loop body of their own:
  `SerializeEntry` and `SerializeLabelled` are the bodies of the dictionary and sequence loops,
  and `SerializeProperties` and `SerializeFields` are the two loops of `SerializeComplexObject`.
  The methods append to a `StringBuilder` object and update the context's `Visited` field. Each
  is proved to have exactly the effect of its function. The four C# methods that only compute a
  value are functions instead: `FormatScalar`, `ApplyTrimming` and `SafeGet` in module
  `Formatting`, and `FormatTypeName` in module `TypeNames`.

The properties are lemmas about those functions (module `RenderingProperties`), for example:
- the output is whole lines;
- the visited set only grows, and only by reference-type objects;
- trimming is idempotent;
- member settings take precedence over type settings;
- the cycle marker is printed on every later entry of an object;
- printing never throws when every type in the graph can be named and no trim length is negative
  (module `Completion`).

Concrete printouts from the test suite are proved in module `Scenarios`.

Where the code does not compile as written, the model repairs it:
- **`TrimmedTypes` is never declared.** `MemberPrintingConfig.TrimmedToLength` uses it
  (ObjectPrinting/ObjectPrinter/MemberPrintingConfig.cs:37), and so does `ApplyTrimming`
  (ObjectPrinting/ObjectPrinter/Serializer.cs:243, 248). PrintingConfig.cs does not declare it.
  The model gives `PrintingConfig` a `TrimmedTypes` map from type to length.
- **`PrintToString` targets a class that does not exist.** It constructs a generic
  `Serializer<TOwner>` (PrintingConfig.cs:41), but `Serializer` is a static class. The model's
  `PrintToString` calls `SerializeObject(obj, config)`.
- **The formatter tables hold `System.Delegate` values, which cannot be called directly.** The
  tables are declared at PrintingConfig.cs:16-17. Yet Serializer.cs:112 (`typeSer(obj)`), 214
  (`del(value)`) and 304 (`memberSer(value)`) call them like functions, which C# rejects (error
  CS0149). The model reads each as a call of the stored formatter on the object. Its tables hold
  `Formatter` functions.

Where the code and its description disagree, the model follows the code:
- **`StintingPrintConfig.TrimmedToLength` does not check its argument.** So a negative length can
  be stored. Printing that member then throws `ArgumentOutOfRangeException` from the slice in
  `ApplyTrimming`. The base class's `TrimmedToLength` rejects negative lengths up front.
- **Any repeated reference prints as a cycle marker.** `Visited` is never emptied during a call.
  So every reference-type object reached a second time is printed as `[CyclicRef T]`, not only
  objects inside a cycle. This includes an object shared by two members and the same string
  instance listed twice (`Scenarios.RepeatedTagIsCyclicRef`).
- **`Using(culture)` on a member handle writes a type-level entry.** It always sets the entry for
  the handle's type.
- **The nesting limit has no check.** The setter accepts any value. A limit of 0 or less prints
  only the marker for a root object.
- **FormatScalar's formatter branch is unreachable.** `Serialize` consults the type formatters
  before the terminal check, so that first branch is never taken on the way through `Serialize`.
  `FormatScalarFormatterBranchUnused` proves this.

## Model

| member | source | states |
|---|---|---|
| Configuration.GetMember | ObjectPrinting/ObjectPrinter/PrintingConfig.cs:44-48 | succeeds exactly for a direct member access and returns that member; any other selector body is an ArgumentException |
| Configuration.PrintingConfig.constructor | ObjectPrinting/ObjectPrinter/PrintingConfig.cs:12-19 | a fresh configuration has every table empty and MaxNestingLevel 5 |
| Configuration.PrintingConfig.SetMaxNestingLevel | ObjectPrinting/ObjectPrinter/PrintingConfig.cs:19 | the setter stores any value and changes nothing else |
| Configuration.PrintingConfig.ExcludingType | ObjectPrinting/ObjectPrinter/PrintingConfig.cs:21-25 | adds exactly the type to ExcludedTypes, leaves every other table as it was, and returns the same configuration |
| Configuration.PrintingConfig.ExcludingMember | ObjectPrinting/ObjectPrinter/PrintingConfig.cs:27-31 | a member-access selector adds exactly that member to ExcludedMember; any other selector throws ArgumentException and leaves every table unchanged |
| Configuration.PrintingConfig.PrintingType | ObjectPrinting/ObjectPrinter/PrintingConfig.cs:33-34 | returns a new type-level handle (no member) bound to this configuration |
| Configuration.PrintingConfig.PrintingMember | ObjectPrinting/ObjectPrinter/PrintingConfig.cs:36-37 | returns a new string-member handle for the selected member, or throws ArgumentException for a non-member selector |
| Configuration.MemberPrintingConfig.constructor | ObjectPrinting/ObjectPrinter/MemberPrintingConfig.cs:7-12 | the handle keeps its owner, its type and its optional member |
| Configuration.MemberPrintingConfig.Using | ObjectPrinting/ObjectPrinter/MemberPrintingConfig.cs:14-24 | registers the formatter for the type when the handle has no member, else for the member (the last registration wins); nothing else changes |
| Configuration.MemberPrintingConfig.UsingCulture | ObjectPrinting/ObjectPrinter/MemberPrintingConfig.cs:26-30 | always writes the culture for the handle's type, even on a member handle |
| Configuration.MemberPrintingConfig.TrimmedToLength | ObjectPrinting/ObjectPrinter/MemberPrintingConfig.cs:32-42 | a negative length throws ArgumentOutOfRangeException and writes nothing; otherwise the length is stored for the type or the member and nothing else changes |
| Configuration.StintingPrintConfig.constructor | ObjectPrinting/ObjectPrinter/StringMemberPrintingConfig.cs:5-6 | the string-member handle's base part is a member handle for String and that member |
| Configuration.StintingPrintConfig.TrimmedToLength | ObjectPrinting/ObjectPrinter/StringMemberPrintingConfig.cs:8-12 | stores any length for the member, negative included, and changes nothing else |
| Configuration.StintingPrintConfig.Using | ObjectPrinting/ObjectPrinter/MemberPrintingConfig.cs:14-24 | the inherited Using always registers a member-level formatter |
| Configuration.StintingPrintConfig.UsingCulture | ObjectPrinting/ObjectPrinter/MemberPrintingConfig.cs:26-30 | the inherited Using(culture) registers the culture for String |
| Context.StringBuilder.Append | ObjectPrinting/ObjectPrinter/Serializer.cs:113 | the text grows by exactly the argument |
| Context.StringBuilder.AppendLine | ObjectPrinting/ObjectPrinter/Serializer.cs:67 | the text grows by the argument and one NewLine |
| Context.SerializationContext.constructor | ObjectPrinting/ObjectPrinter/SerializationContext.cs:6-10 | keeps the configuration and builder it is given and starts with nothing visited |
| Context.SerializationContext.Indent | ObjectPrinting/ObjectPrinter/SerializationContext.cs:12 | appends exactly `level` tab characters |
| Strings.Tabs | ObjectPrinting/ObjectPrinter/SerializationContext.cs:12 | a string of exactly n characters, every one a tab |
| Strings.IndexOf | ObjectPrinting/ObjectPrinter/Serializer.cs:278 | -1 exactly when the character is absent, otherwise the position of its first occurrence |
| Strings.IndexOfFirst | ObjectPrinting/ObjectPrinter/Serializer.cs:278 | after a prefix free of the character, its first occurrence is at the prefix's length |
| Strings.Join | ObjectPrinting/ObjectPrinter/Serializer.cs:282 | defines `string.Join`: the parts in order with the separator between neighbours; its use is stated by FormatTypeNameOfGeneric |
| Strings.TrimLineEnd | ObjectPrinting/ObjectPrinter/Serializer.cs:305 | a prefix of the input that does not end in '\r' or '\n', and everything removed was '\r' or '\n' |
| Strings.NatToString | ObjectPrinting/ObjectPrinter/Serializer.cs:168 | the index printed in "[i] = " is a non-empty string of decimal digits |
| Strings.NatToStringValue | ObjectPrinting/ObjectPrinter/Serializer.cs:168 | the digits printed for an index spell that index back |
| Strings.NatToStringInjective | ObjectPrinting/ObjectPrinter/Serializer.cs:164-170 | two different indices never print the same label |
| Formatting.IsTerminal | ObjectPrinting/ObjectPrinter/Serializer.cs:13-20 | defines the terminal check (line 123): one of the seventeen types of the `TerminalTypes` set (String, DateTime, TimeSpan, Guid, Decimal, Byte, SByte, Int16, UInt16, Int32, UInt32, Int64, UInt64, Single, Double, Boolean, Char), or any enum |
| Formatting.TerminalTypesAreStringOrStructs | ObjectPrinting/ObjectPrinter/Serializer.cs:13-20 | every terminal type is a non-generic, non-enum System type, and String is the only reference type among them |
| Formatting.TrimLimit | ObjectPrinting/ObjectPrinter/Serializer.cs:235-251 | no parent member means no trim length; a member with its own length gets exactly that length; a member without one gets its declared type's length if there is one, and none otherwise |
| Formatting.Truncate | ObjectPrinting/ObjectPrinter/Serializer.cs:253-254 | a prefix of the text of length min(n, length) |
| Formatting.EnsureNewLine | ObjectPrinting/ObjectPrinter/Serializer.cs:257 | the result ends in NewLine; text already ending in one is unchanged, otherwise exactly one NewLine is added |
| Formatting.ApplyTrimming | ObjectPrinting/ObjectPrinter/Serializer.cs:230-258 | throws ArgumentOutOfRangeException exactly when the applicable length is negative; otherwise the text is cut to that length, if any, and made to end in NewLine |
| Formatting.ScalarText | ObjectPrinting/ObjectPrinter/Serializer.cs:212-225 | defines the untrimmed scalar text: the type formatter's text, else the string itself, else the culture text of an IFormattable object with a registered culture, else its ToString; stated by FormatScalarFormatterBranchUnused and CultureOnlyForFormattable |
| Formatting.FormatScalar | ObjectPrinting/ObjectPrinter/Serializer.cs:206-228 | defines FormatScalar as that text trimmed for the parent member; what it gives is stated by TerminalRendersScalar |
| Formatting.SafeGet | ObjectPrinting/ObjectPrinter/Serializer.cs:260-270 | null exactly when the getter threw or returned null; otherwise the value read |
| TypeNames.Stem | ObjectPrinting/ObjectPrinter/Serializer.cs:277-279 | defines the stem of a generic name: the Name up to its first backtick; stated by StemOf |
| TypeNames.StemOf | ObjectPrinting/ObjectPrinter/Serializer.cs:277-279 | a generic definition's name is cut at its first backtick |
| TypeNames.FormatTypeName | ObjectPrinting/ObjectPrinter/Serializer.cs:272-284 | a non-generic type prints as its Name; a generic type without a backtick throws ArgumentOutOfRangeException; otherwise the result is the stem, "<", ..., ">" |
| TypeNames.FormatTypeArgs | ObjectPrinting/ObjectPrinter/Serializer.cs:281-282 | one formatted name per generic argument, or that argument's exception |
| TypeNames.FormatTypeNameSucceedsIff | ObjectPrinting/ObjectPrinter/Serializer.cs:272-284 | naming succeeds if and only if every generic type in the argument tree has a backtick in its Name |
| TypeNames.FormatTypeArgsSucceedIff | ObjectPrinting/ObjectPrinter/Serializer.cs:281-282 | the argument list formats if and only if each remaining argument is well named |
| TypeNames.FormatTypeNameOfGeneric | ObjectPrinting/ObjectPrinter/Serializer.cs:277-283 | a generic type's name is its stem followed by its arguments' names joined by ", " inside angle brackets |
| TypeNames.FormatTypeArgsOf | ObjectPrinting/ObjectPrinter/Serializer.cs:281-282 | the formatted arguments are exactly the arguments' names, in order |
| Serializer.SerializeObject | ObjectPrinting/ObjectPrinter/Serializer.cs:22-28 | the returned text is what Render gives for the value at level 0 with no parent member and nothing visited, or the exception when Render aborts |
| Serializer.PrintToString | ObjectPrinting/ObjectPrinter/PrintingConfig.cs:40-41 | the same as SerializeObject with this configuration (each call starts from an empty visited set) |
| Serializer.Serialize | ObjectPrinting/ObjectPrinter/Serializer.cs:30-57 | appends exactly Render's text and leaves Visited as Render says, or fails exactly when Render aborts |
| Serializer.TryHandleNullOrExcludedOrDepth | ObjectPrinting/ObjectPrinter/Serializer.cs:60-86 | handles the value exactly when it is null, of an excluded type or at the nesting limit, writing "null", "[Excluded Type]" or the depth marker; otherwise writes nothing |
| Serializer.TryHandleCycle | ObjectPrinting/ObjectPrinter/Serializer.cs:88-101 | handles exactly a reference-type object already visited, writing the cycle marker; otherwise marks a reference-type object as visited and writes nothing |
| Serializer.TryHandleCustomTypeSerializer | ObjectPrinting/ObjectPrinter/Serializer.cs:103-115 | handles exactly an object whose runtime type has a formatter, writing its trimmed text |
| Serializer.TryHandleTerminal | ObjectPrinting/ObjectPrinter/Serializer.cs:117-128 | handles exactly a terminal or enum object, writing FormatScalar's text |
| Serializer.TryHandleDictionary | ObjectPrinting/ObjectPrinter/Serializer.cs:130-152 | handles exactly a dictionary, with RenderDictionary's effect: the header line, then a Key line and a Value line per entry |
| Serializer.SerializeEntry | ObjectPrinting/ObjectPrinter/Serializer.cs:140-149 | one loop iteration: the key under "Key = ", then the value under "Value = " |
| Serializer.SerializeLabelled | ObjectPrinting/ObjectPrinter/Serializer.cs:142-148 | indentation, a tag, then the value serialized one level deeper with no parent member |
| Serializer.TryHandleEnumerable | ObjectPrinting/ObjectPrinter/Serializer.cs:154-174 | handles exactly a non-string enumerable, with RenderSequence's effect: the header line, then "[i] = " lines counting from 0 |
| Serializer.SerializeComplexObject | ObjectPrinting/ObjectPrinter/Serializer.cs:176-203 | appends the header line, then the properties' text, then the fields' text, as RenderComposite says |
| Serializer.SerializeProperties | ObjectPrinting/ObjectPrinter/Serializer.cs:184-193 | serializes every readable property in the order reflection enumerates and skips the unreadable ones |
| Serializer.SerializeFields | ObjectPrinting/ObjectPrinter/Serializer.cs:195-202 | serializes every field in the order reflection enumerates |
| Serializer.SerializeMember | ObjectPrinting/ObjectPrinter/Serializer.cs:286-311 | has exactly RenderMember's effect (nothing for an excluded member; otherwise the name, then the formatter's line or the nested value) |
| Rendering.Guarded | ObjectPrinting/ObjectPrinter/Serializer.cs:60-86 | defines when TryHandleNullOrExcludedOrDepth applies: null, an excluded runtime type, or level >= MaxNestingLevel |
| Rendering.GuardText | ObjectPrinting/ObjectPrinter/Serializer.cs:65-83 | defines its line, checked in the source's order: "null", else "[Excluded Type]", else the depth marker; stated by NullRendersNull, ExcludedTypeRendersMarker and DepthLimitRendersMarker |
| Rendering.Revisit | ObjectPrinting/ObjectPrinter/Serializer.cs:93-97 | defines a revisit: a reference-type object already in Visited, so that `Visited.Add` returns false |
| Rendering.Mark | ObjectPrinting/ObjectPrinter/Serializer.cs:93-96 | defines Visited after TryHandleCycle passes: unchanged for a value type, else with the object added; stated by ValueTypesNeverCycle and RenderSound |
| Rendering.DepthMarker | ObjectPrinting/ObjectPrinter/Serializer.cs:81 | defines the line "[T превышен уровень вложенности]", or the exception when T cannot be named |
| Rendering.CycleMarker | ObjectPrinting/ObjectPrinter/Serializer.cs:98 | defines the line "[CyclicRef T]", or the exception when T cannot be named |
| Rendering.HeaderLine | ObjectPrinting/ObjectPrinter/Serializer.cs:139 | defines the header line of a dictionary, enumerable (line 163) or object (line 182): the type's name; stated by HeaderEndsWithNewLine |
| Rendering.ItemLabel | ObjectPrinting/ObjectPrinter/Serializer.cs:168 | defines the tag "[i] = " of the i-th item; distinct indices give distinct tags by NatToStringInjective |
| Rendering.Render | ObjectPrinting/ObjectPrinter/Serializer.cs:30-57 | defines what one Serialize call appends and leaves visited: the first of null, excluded type, depth limit, revisit, type formatter, terminal, dictionary, sequence and composite; its cases are stated by the case lemmas below and its invariants by RenderSound and RenderCompletes |
| Rendering.RenderDictionary | ObjectPrinting/ObjectPrinter/Serializer.cs:130-152 | defines the dictionary case: the header line, then the entries; aborts when the type cannot be named |
| Rendering.RenderEntries | ObjectPrinting/ObjectPrinter/Serializer.cs:140-149 | defines the entry loop: each entry in order, threading the visited set, stopping at the first abort |
| Rendering.RenderEntry | ObjectPrinting/ObjectPrinter/Serializer.cs:142-148 | defines one entry: the key labelled "Key = ", then the value labelled "Value = " |
| Rendering.Labelled | ObjectPrinting/ObjectPrinter/Serializer.cs:167-169 | defines an element line: indentation for level + 1, the tag, then the value rendered one level deeper with no parent |
| Rendering.RenderSequence | ObjectPrinting/ObjectPrinter/Serializer.cs:154-174 | defines the enumerable case: the header line, then the items counted from 0 |
| Rendering.RenderItems | ObjectPrinting/ObjectPrinter/Serializer.cs:164-171 | defines the item loop: each item labelled "[i] = ", i counting up, threading the visited set |
| Rendering.RenderComposite | ObjectPrinting/ObjectPrinter/Serializer.cs:176-203 | defines the composite case: the header line, then the properties, then the fields |
| Rendering.RenderProperties | ObjectPrinting/ObjectPrinter/Serializer.cs:184-193 | defines the property loop: unreadable properties are skipped, the others rendered in order |
| Rendering.RenderFields | ObjectPrinting/ObjectPrinter/Serializer.cs:195-202 | defines the field loop: every field rendered in order |
| Rendering.RenderMember | ObjectPrinting/ObjectPrinter/Serializer.cs:286-311 | defines one member: nothing when excluded, else the name and either the member formatter's line or the value rendered one level deeper |
| RenderingProperties.MarkerEndsWithNewLine | ObjectPrinting/ObjectPrinter/Serializer.cs:79-99 | the depth and cycle markers are whole lines |
| RenderingProperties.HeaderEndsWithNewLine | ObjectPrinting/ObjectPrinter/Serializer.cs:139-182 | the header of a dictionary, sequence or object is a whole line |
| RenderingProperties.RenderSound | ObjectPrinting/ObjectPrinter/Serializer.cs:30-57 | every completed rendering is one or more whole lines; Visited only grows, and only by reference-type objects of the heap; a reference-type object entered past the guards is visited afterwards |
| RenderingProperties.DictionarySound | ObjectPrinting/ObjectPrinter/Serializer.cs:130-152 | a dictionary's rendering is whole lines and keeps Visited growing as above |
| RenderingProperties.EntriesSound | ObjectPrinting/ObjectPrinter/Serializer.cs:140-149 | the entries' text is whole lines (possibly none) and keeps Visited growing as above |
| RenderingProperties.EntrySound | ObjectPrinting/ObjectPrinter/Serializer.cs:140-149 | one entry is at least one whole line and keeps Visited growing as above |
| RenderingProperties.LabelledSound | ObjectPrinting/ObjectPrinter/Serializer.cs:142-148 | a labelled value is at least one whole line and keeps Visited growing as above |
| RenderingProperties.SequenceSound | ObjectPrinting/ObjectPrinter/Serializer.cs:154-174 | a sequence's rendering is whole lines and keeps Visited growing as above |
| RenderingProperties.ItemsSound | ObjectPrinting/ObjectPrinter/Serializer.cs:165-171 | the items' text is whole lines (possibly none) and keeps Visited growing as above |
| RenderingProperties.CompositeSound | ObjectPrinting/ObjectPrinter/Serializer.cs:176-203 | an object's rendering is whole lines and keeps Visited growing as above |
| RenderingProperties.PropertiesSound | ObjectPrinting/ObjectPrinter/Serializer.cs:184-193 | the properties' text is whole lines (possibly none) and keeps Visited growing as above |
| RenderingProperties.FieldsSound | ObjectPrinting/ObjectPrinter/Serializer.cs:195-202 | the fields' text is whole lines (possibly none) and keeps Visited growing as above |
| RenderingProperties.MemberSound | ObjectPrinting/ObjectPrinter/Serializer.cs:286-311 | a member's text is whole lines (none when excluded) and keeps Visited growing as above |
| RenderingProperties.NullRendersNull | ObjectPrinting/ObjectPrinter/Serializer.cs:65-69 | null prints as the single line "null" at every depth, and nothing becomes visited |
| RenderingProperties.ExcludedTypeRendersMarker | ObjectPrinting/ObjectPrinter/Serializer.cs:73-77 | an object of an excluded runtime type prints as "[Excluded Type]" and is not visited |
| RenderingProperties.DepthLimitRendersMarker | ObjectPrinting/ObjectPrinter/Serializer.cs:79-83 | at or past the limit, an object prints as "[T превышен уровень вложенности]" (or aborts when T cannot be named) |
| RenderingProperties.RevisitRendersCycleMarker | ObjectPrinting/ObjectPrinter/Serializer.cs:88-99 | a visited reference-type object prints as "[CyclicRef T]" and Visited is unchanged; when T cannot be named the call aborts |
| RenderingProperties.EnteredObjectsStayMarked | ObjectPrinting/ObjectPrinter/Serializer.cs:96-98 | after any completed rendering, every object visited before it still prints as the cycle marker when met again |
| RenderingProperties.ValueTypesNeverCycle | ObjectPrinting/ObjectPrinter/Serializer.cs:93-94 | a value-type object is never treated as a revisit and never enters Visited |
| RenderingProperties.TerminalRendersScalar | ObjectPrinting/ObjectPrinter/Serializer.cs:117-128 | a terminal object without a type formatter prints as its scalar text, trimmed for its parent member |
| RenderingProperties.FormatScalarFormatterBranchUnused | ObjectPrinting/ObjectPrinter/Serializer.cs:206-228 | without a type formatter, the scalar text is the culture text of an IFormattable non-string with a registered culture, and the ToString text otherwise |
| RenderingProperties.CultureOnlyForFormattable | ObjectPrinting/ObjectPrinter/Serializer.cs:220-225 | for a string or a non-IFormattable object, no culture table changes the text |
| RenderingProperties.NoParentNoTrim | ObjectPrinting/ObjectPrinter/Serializer.cs:237-251 | without a parent member nothing is trimmed: only the NewLine is ensured |
| RenderingProperties.MemberTrimOverridesType | ObjectPrinting/ObjectPrinter/Serializer.cs:237-251 | a member's own trim length wins over any length registered for its type |
| RenderingProperties.TrimmedIsPrefix | ObjectPrinting/ObjectPrinter/Serializer.cs:253-257 | trimmed text is at most the length plus the NewLine, and keeps a prefix of the original |
| RenderingProperties.ApplyTrimmingIdempotent | ObjectPrinting/ObjectPrinter/Serializer.cs:230-258 | trimming its own output again changes nothing |
| RenderingProperties.ExcludedMemberSilent | ObjectPrinting/ObjectPrinter/Serializer.cs:295-296 | an excluded member, or a member of an excluded declared type, prints nothing at all |
| RenderingProperties.MemberFormatterOverridesType | ObjectPrinting/ObjectPrinter/Serializer.cs:301-307 | with a member formatter, type formatters do not matter and nothing is visited |
| RenderingProperties.MemberFormatterLine | ObjectPrinting/ObjectPrinter/Serializer.cs:301-306 | a member formatter's line ends in exactly one line break |
| RenderingProperties.NullOrFailedReadPrintsNull | ObjectPrinting/ObjectPrinter/Serializer.cs:301-310 | a getter that throws or returns null gives the line "name = null"; with a member formatter, the formatter is not called and "null" is trimmed instead |
| RenderingProperties.MemberWithoutFormatterRecurses | ObjectPrinting/ObjectPrinter/Serializer.cs:309-310 | without a member formatter, the member's value is rendered one level deeper with the member as parent |
| RenderingProperties.CompositeIsWalked | ObjectPrinting/ObjectPrinter/Serializer.cs:36-56 | an object no earlier case claims is printed member by member after being marked |
| RenderingProperties.CustomTypeFormatterRendersText | ObjectPrinting/ObjectPrinter/Serializer.cs:103-115 | an object whose runtime type has a formatter prints as the formatter's text trimmed for its parent, before the terminal, dictionary, sequence and composite cases, and counts as entered |
| RenderingProperties.DictionaryIsWalked | ObjectPrinting/ObjectPrinter/Serializer.cs:50-51 | a dictionary no earlier case claims is printed entry by entry after being marked, even if it is also enumerable |
| RenderingProperties.PropertiesShowMember | ObjectPrinting/ObjectPrinter/Serializer.cs:184-193 | a readable property's line appears in the property loop's output, whatever the other properties print |
| RenderingProperties.SequenceIsWalked | ObjectPrinting/ObjectPrinter/Serializer.cs:36-54 | a non-string enumerable no earlier case claims is printed element by element after being marked |
| Completion.TrimmingSucceeds | ObjectPrinting/ObjectPrinter/Serializer.cs:253-254 | with no negative trim length stored, trimming never throws |
| Completion.RenderCompletes | ObjectPrinting/ObjectPrinter/Serializer.cs:30-57 | when every type in the graph can be named and no trim length is negative, a Serialize call never throws |
| Completion.DictionaryCompletes | ObjectPrinting/ObjectPrinter/Serializer.cs:130-152 | the same for a dictionary |
| Completion.EntriesComplete | ObjectPrinting/ObjectPrinter/Serializer.cs:140-149 | the same for the entry loop |
| Completion.EntryCompletes | ObjectPrinting/ObjectPrinter/Serializer.cs:142-148 | the same for one entry |
| Completion.LabelledCompletes | ObjectPrinting/ObjectPrinter/Serializer.cs:167-169 | the same for one element line |
| Completion.SequenceCompletes | ObjectPrinting/ObjectPrinter/Serializer.cs:154-174 | the same for an enumerable |
| Completion.ItemsComplete | ObjectPrinting/ObjectPrinter/Serializer.cs:164-171 | the same for the item loop |
| Completion.CompositeCompletes | ObjectPrinting/ObjectPrinter/Serializer.cs:176-203 | the same for an object printed member by member |
| Completion.PropertiesComplete | ObjectPrinting/ObjectPrinter/Serializer.cs:184-193 | the same for the property loop |
| Completion.FieldsComplete | ObjectPrinting/ObjectPrinter/Serializer.cs:195-202 | the same for the field loop |
| Completion.MemberCompletes | ObjectPrinting/ObjectPrinter/Serializer.cs:286-311 | the same for one member, with or without a member formatter |
| Scenarios.SelfReferenceIsCut | ObjectPrinting/ObjectPrinterTests/ObjectPrinterTests.cs:289-300 | a Person whose Friend property is the person itself, whatever its other members, is printed without throwing when its types can be named; the text starts with "Person" and contains the line "\tFriend = [CyclicRef Person]" |
| Scenarios.SoleSelfFriendIsCut | ObjectPrinting/ObjectPrinterTests/ObjectPrinterTests.cs:289-300 | a Person whose only member is a Friend referring to itself prints exactly "Person", then "\tFriend = [CyclicRef Person]" |
| Scenarios.SelfFriendMember | ObjectPrinting/ObjectPrinterTests/ObjectPrinterTests.cs:289-300 | the self-referencing Friend member prints its cycle marker line |
| Scenarios.RatingsTypeName | ObjectPrinting/ObjectPrinterTests/ObjectPrinterTests.cs:215-225 | Dictionary`2 over String and Int32 prints as "Dictionary<String, Int32>" |
| Scenarios.TagsTypeName | ObjectPrinting/ObjectPrinterTests/ObjectPrinterTests.cs:205-213 | List`1 over String prints as "List<String>" |
| Scenarios.TagsListed | ObjectPrinting/ObjectPrinterTests/ObjectPrinterTests.cs:205-213 | a list of two distinct strings prints as "List<String>", "\t[0] = first", "\t[1] = second" |
| Scenarios.RepeatedTagIsCyclicRef | ObjectPrinting/ObjectPrinter/Serializer.cs:93-99 | the same string instance listed twice prints "[CyclicRef String]" the second time |
| Scenarios.StringElement | ObjectPrinting/ObjectPrinter/Serializer.cs:165-170 | an unvisited string element prints as its own text after its tag |
| Scenarios.TwoItems | ObjectPrinting/ObjectPrinter/Serializer.cs:165-171 | a two-element sequence is its first element's lines followed by its second's |
| Scenarios.GenericNameWithoutBacktickThrows | ObjectPrinting/ObjectPrinter/Serializer.cs:277-279 | a generic type whose Name has no backtick throws ArgumentOutOfRangeException |
| Scenarios.MemberTrimmed | ObjectPrinting/ObjectPrinterTests/ObjectPrinterTests.cs:142-150 | "Fai", with Name trimmed to 2, is "Fa" |
| Scenarios.TypeTrimmed | ObjectPrinting/ObjectPrinterTests/ObjectPrinterTests.cs:162-172 | with Int32 trimmed to 1, Age's "20" is "2" |
| Scenarios.OtherMemberUntrimmed | ObjectPrinting/ObjectPrinter/Serializer.cs:237-251 | a trim length for IQ leaves Age whole |
| Scenarios.NegativeTrimThrows | ObjectPrinting/ObjectPrinter/StringMemberPrintingConfig.cs:8-12 | a negative length stored for a string member makes printing it throw |
| Scenarios.FriendOfFriendPastLimit | ObjectPrinting/ObjectPrinterTests/ObjectPrinterTests.cs:323-338 | with MaxNestingLevel 2, the Person two levels down prints only the nesting marker |
| Scenarios.FriendChain | ObjectPrinting/ObjectPrinterTests/ObjectPrinterTests.cs:323-338 | the same chain under any limit-2 configuration that neither excludes nor reformats Person or Friend |
| Scenarios.FriendChainStopsAtLimit | ObjectPrinting/ObjectPrinterTests/ObjectPrinterTests.cs:323-338 | with MaxNestingLevel 2, a chain of Persons whose only member is Friend prints the root, its friend, and for the friend's friend only "[Person превышен уровень вложенности]"; the root and its friend end up visited |
| Scenarios.NestedNamesakesAreDistinct | ObjectPrinting/ObjectPrinter/Serializer.cs:272-274 | Outer1.Inner and Outer2.Inner are different types, yet both print as "Inner" |
| Scenarios.ExcludingOneNamesakeKeepsTheOther | ObjectPrinting/ObjectPrinter/PrintingConfig.cs:20-24 | excluding Outer1.Inner does not guard an Outer2.Inner object below the depth limit, since the exclusion set holds one type and Serializer.cs:72 looks up the object's own type |

## Left out

- Reflection, expression trees, `CultureInfo` and number and date formatting are abstracted.
  - Types, members, selectors and cultures are plain values.
  - An object's `ToString` and culture-specific text are fields of its node.
  - Nothing about how .NET formats numbers or dates is modelled.
- Formatter delegates are pure functions of the graph and the object. A delegate that throws,
  returns null or mutates the graph is not modelled. Neither is the `InvalidCastException` that
  `Wrapper` raises when a type formatter meets a value of another type.
- Getters are assumed free of side effects. Their outcome (a value or an exception) is part of the
  node. `SafeGet` turns a thrown exception into null.
- `Environment.NewLine` is fixed to "\n".
- The order in which dictionaries and collections enumerate is the order of the node's sequence.
- The order of an object's properties and fields is the order its node lists them. `GetProperties`
  and `GetFields` promise no order (inherited members usually come after the type's own), so the
  model takes whatever order they return as given rather than deriving it from declarations.
- Array type names such as "Int32[,]" are taken as given Names, so array rank is not modelled.
- `ObjectPrintingExtensions` (the `PrintToString` extension methods and `ObjectPrinter.For`) is not
  part of this model.
- The unused `TrimStringLength` field is left out.
- The `Delegate` values in the formatter tables are not modelled as such. The tables hold
  `Formatter` functions directly.
- `StintingPrintConfig` inherits from `MemberPrintingConfig` and hides its `TrimmedToLength`. The
  model uses composition instead: a `Base` handle receives the inherited `Using` calls.
- Concurrency and thread safety are not modelled; the core has none.
- The NUnit tests are not modelled as such. The ones reproduced as lemmas are listed in the table.
- Context.SerializationContext.Indent: takes a `nat`, because every call passes a level plus one. A
  negative count in the C# `new string('\t', n)` would throw instead.
- Serializer.TryHandleNullOrExcludedOrDepth, Serializer.Serialize and the other methods: when an
  exception aborts a call, the text already appended is not described. The exception propagates
  out of `PrintToString` and that text is discarded.
- Serializer.TryHandleDictionary and Serializer.TryHandleEnumerable: a dictionary's entries and
  an enumerable's items are a finite sequence fixed in the node. The C# code runs the object's own
  enumerator instead. So an endless enumerable, which makes `PrintToString` run forever (the
  nesting limit bounds depth, not width), is not modelled. Neither is an enumerator whose
  `MoveNext` or `Current` throws; `SafeGet` does not catch that exception, so it would escape
  `PrintToString`. That `Render` is total rests on this simplification.
- Runtime.MemberKey: a member is identified by its declaring type, name, kind and declared type.
  The declared type is fixed by the declaration, so it tells no two members apart. In .NET,
  `PropertyInfo` and `FieldInfo` equality also depends on the type the member was reflected from.
  `GetMember` reflects on the selector's type, but the walk reflects on the runtime type. So for
  an inherited member of a derived runtime type, the C# lookups in `ExcludedMember`,
  `CustomMemberSerializers` and `TrimmedMembers` miss, while the model's lookups hit.
- Formatting.EnsureNewLine: compares ordinally. `String.EndsWith(string)` in C# compares using
  the current culture, so text ending in "\r\n" under ICU, or ending in a character the culture
  ignores, can be treated differently.
- Formatting.Truncate: lengths count Unicode scalar values, the model's characters. C# `Length`
  and the slice `s[..length]` count UTF-16 code units. So text outside the Basic Multilingual
  Plane is cut at a different place: "😀ab" cut to 2 is "😀a" in the model but "😀" in C#. A cut
  through a surrogate pair, which leaves a lone high surrogate in C#, cannot be represented.
  Formatting.ApplyTrimming inherits this.
- Formatting.FormatScalar: has no contract of its own. Its behaviour is stated through
  `TerminalRendersScalar`, `FormatScalarFormatterBranchUnused` and `CultureOnlyForFormattable`.
