/** Concrete object graphs from the printer's own usage, rendered end to end. */
module Scenarios {
  import opened Runtime
  import opened Strings
  import opened Configuration
  import opened TypeNames
  import opened Formatting
  import opened Rendering
  import opened RenderingProperties
  import opened Completion

  const Person: TypeDesc := TypeDesc("ObjectPrinting.ObjectPrinterTests", "Person", false, [], false, false, None, "ObjectPrinterTests")
  const Friend: MemberKey := MemberKey(Person, "Friend", Property, Person)

  /** A Person whose only member, Friend, refers to the object itself. */
  ghost predicate SelfFriend(h: Heap, r: Ref) {
    r in h && h[r].runtimeType == Person && h[r].shape == Composite([Member(Friend, true, Returns(Obj(r)))], [])
  }

  lemma PersonIsNotTerminal()
    ensures !IsTerminal(Person) && FormatTypeName(Person) == Ok("Person")
  {
    assert Person.ns != "System";
  }

  lemma SelfFriendText()
    ensures Tabs(1) + "Friend" + " = " + ("[CyclicRef " + "Person" + "]" + NewLine) == "\tFriend = [CyclicRef Person]\n"
  {
    assert Tabs(1) == "\t";
  }

  /** Printing Person objects: neither the type nor Friend is excluded or reformatted. */
  predicate PlainPersons(c: Settings) {
    Person !in c.excludedTypes && Person !in c.customTypeSerializers &&
    Friend !in c.excludedMember && Friend !in c.customMemberSerializers
  }

  lemma DefaultsArePlain(level: int)
    ensures PlainPersons(Defaults) && PlainPersons(Defaults.(maxNestingLevel := level))
  {
  }

  /** A Person met for the first time is its header line followed by its members' lines. */
  lemma PersonIsWalked(h: Heap, c: Settings, r: Ref, level: nat, parent: Option<MemberKey>, visited: set<Ref>)
    requires Closed(h) && PlainPersons(c) && r in h && h[r].runtimeType == Person && h[r].shape.Composite?
    requires r !in visited && level < c.maxNestingLevel
    ensures Render(h, c, Obj(r), level, parent, visited) == RenderComposite(h, c, r, level, visited + {r})
    ensures HeaderLine(Person) == Ok("Person\n")
  {
    PersonIsNotTerminal();
    CompositeIsWalked(h, c, r, level, parent, visited);
    assert "Person" + NewLine == "Person\n";
  }

  /** The Friend property is printed by walking the friend one level down with Friend as parent. */
  lemma FriendRecurses(h: Heap, c: Settings, q: Ref, level: nat, visited: set<Ref>)
    requires Closed(h) && PlainPersons(c) && q in h && level < c.maxNestingLevel
    ensures RenderMember(h, c, Member(Friend, true, Returns(Obj(q))), level, visited)
            == Then(Tabs(level + 1) + "Friend = ", Render(h, c, Obj(q), level + 1, Some(Friend), visited))
  {
    MemberWithoutFormatterRecurses(h, c, Member(Friend, true, Returns(Obj(q))), level, visited);
    assert Tabs(level + 1) + Friend.name + " = " == Tabs(level + 1) + "Friend = ";
  }

  /** The entry of the person through Friend, one level down, meets the object again. */
  lemma SelfFriendMember(h: Heap, r: Ref, visited: set<Ref>)
    requires Closed(h) && r in h && h[r].runtimeType == Person && r in visited
    ensures RenderMember(h, Defaults, Member(Friend, true, Returns(Obj(r))), 0, visited)
            == Done("\tFriend = [CyclicRef Person]\n", visited)
  {
    PersonIsNotTerminal();
    MemberWithoutFormatterRecurses(h, Defaults, Member(Friend, true, Returns(Obj(r))), 0, visited);
    RevisitRendersCycleMarker(h, Defaults, r, 1, Some(Friend), visited);
    SelfFriendText();
  }

  lemma SelfFriendProperties(h: Heap, r: Ref)
    requires Closed(h) && SelfFriend(h, r)
    ensures RenderProperties(h, Defaults, [Member(Friend, true, Returns(Obj(r)))], 0, {r})
            == Done("\tFriend = [CyclicRef Person]\n", {r})
  {
    SelfFriendMember(h, r, {r});
    assert "\tFriend = [CyclicRef Person]\n" + "" == "\tFriend = [CyclicRef Person]\n";
  }

  /** The smallest self-referencing Person: the cycle is cut at the second entry of the same
      object, which prints a marker, so the printout is two lines. */
  lemma SoleSelfFriendIsCut(h: Heap, r: Ref)
    requires Closed(h) && SelfFriend(h, r)
    ensures Render(h, Defaults, Obj(r), 0, None, {})
            == Done("Person\n\tFriend = [CyclicRef Person]\n", {r})
  {
    PersonIsNotTerminal();
    CompositeIsWalked(h, Defaults, r, 0, None, {});
    assert NodeIn(h, h[r]);
    SelfFriendProperties(h, r);
    SelfReferenceText();
  }

  /** A Person among whose readable properties is a Friend that refers to the object itself; the
      other properties and the fields are arbitrary. */
  ghost predicate SelfFriendAmong(h: Heap, r: Ref) {
    r in h && h[r].runtimeType == Person && h[r].shape.Composite? &&
    Member(Friend, true, Returns(Obj(r))) in h[r].shape.properties
  }

  /** Printing a Person whose Friend is the person itself, whatever else it holds, does not throw
      when every type in the graph can be named; and when it completes, the text starts with the
      header and contains the cycle marker line for Friend: the walk does not follow the
      reference again. */
  lemma SelfReferenceIsCut(h: Heap, r: Ref)
    requires Closed(h) && SelfFriendAmong(h, r)
    ensures Nameable(h) ==> Render(h, Defaults, Obj(r), 0, None, {}).Done?
    ensures var o := Render(h, Defaults, Obj(r), 0, None, {});
            o.Done? ==> "Person\n" <= o.text && Contains(o.text, "\tFriend = [CyclicRef Person]\n")
  {
    if Nameable(h) {
      RenderCompletes(h, Defaults, Obj(r), 0, None, {});
    }
    var line := "\tFriend = [CyclicRef Person]\n";
    var m := Member(Friend, true, Returns(Obj(r)));
    DefaultsArePlain(5);
    PersonIsWalked(h, Defaults, r, 0, None, {});
    assert {} + {r} == {r};
    assert NodeIn(h, h[r]);
    forall v: set<Ref> | {r} <= v
      ensures RenderMember(h, Defaults, m, 0, v) == Done(line, v)
    {
      SelfFriendMember(h, r, v);
    }
    PropertiesShowMember(h, Defaults, h[r].shape.properties, 0, {r}, m, line);
    var p := RenderProperties(h, Defaults, h[r].shape.properties, 0, {r});
    if p.Done? {
      var f := RenderFields(h, Defaults, h[r].shape.fields, 0, p.visited);
      if f.Done? {
        ContainsAfter("Person\n", p.text, line);
        ContainsBefore("Person\n" + p.text, f.text, line);
        assert ("Person\n" + p.text + f.text)[..|"Person\n"|] == "Person\n";
      }
    }
  }

  lemma SelfReferenceText()
    ensures "Person" + NewLine + "\tFriend = [CyclicRef Person]\n" + "" == "Person\n\tFriend = [CyclicRef Person]\n"
  {
  }

  const Int32: TypeDesc := SystemStruct("Int32")

  lemma RatingsText()
    ensures "Dictionary" + "<" + Join(", ", ["String", "Int32"]) + ">" == "Dictionary<String, Int32>"
  {
    assert Join(", ", ["String", "Int32"]) == "String" + ", " + "Int32";
  }

  /** Generic arguments are spelled out between angle brackets, separated by ", ": the type of
      Person.Ratings prints as Dictionary<String, Int32>. */
  lemma RatingsTypeName(t: TypeDesc)
    requires t.isGeneric && t.name == "Dictionary`2" && t.args == [StringType, Int32]
    ensures FormatTypeName(t) == Ok("Dictionary<String, Int32>")
  {
    StemOf(t, "Dictionary", "2");
    FormatTypeNameOfGeneric(t, ["String", "Int32"]);
    RatingsText();
  }

  lemma TagsText()
    ensures "List" + "<" + Join(", ", ["String"]) + ">" == "List<String>"
  {
  }

  /** The type of Person.Tags prints as List<String>. */
  lemma TagsTypeName(t: TypeDesc)
    requires t.isGeneric && t.name == "List`1" && t.args == [StringType]
    ensures FormatTypeName(t) == Ok("List<String>")
  {
    StemOf(t, "List", "1");
    FormatTypeNameOfGeneric(t, ["String"]);
    TagsText();
  }

  /** A string object of the graph whose text does not end in a line break. */
  ghost predicate StringNode(h: Heap, a: Ref, text: string) {
    a in h && h[a].runtimeType == StringType && h[a].text == text && !EndsWith(text, NewLine)
  }

  lemma IndexLabels()
    ensures ItemLabel(0) == "[0] = " && ItemLabel(1) == "[1] = "
  {
    assert NatToString(0) == "0" && NatToString(1) == "1";
  }

  /** A configuration that neither excludes nor reformats strings and lets one level of elements
      be printed, as the default one does. */
  predicate PlainStrings(c: Settings) {
    StringType !in c.excludedTypes && StringType !in c.customTypeSerializers && 1 < c.maxNestingLevel
  }

  /** A string element one level down, met for the first time, prints as its own text. */
  lemma StringElement(h: Heap, c: Settings, a: Ref, text: string, tag: string, visited: set<Ref>)
    requires Closed(h) && PlainStrings(c) && StringNode(h, a, text) && a !in visited
    ensures Labelled(h, c, Obj(a), tag, 0, visited) == Done("\t" + tag + text + "\n", visited + {a})
  {
    StringRendersText(h, c, a, text, visited);
    assert Tabs(1) == "\t";
    assert "\t" + tag + (text + NewLine) == "\t" + tag + text + "\n";
  }

  lemma StringRendersText(h: Heap, c: Settings, a: Ref, text: string, visited: set<Ref>)
    requires Closed(h) && PlainStrings(c) && StringNode(h, a, text) && a !in visited
    ensures Render(h, c, Obj(a), 1, None, visited) == Done(text + NewLine, visited + {a})
  {
    assert IsTerminal(StringType);
    assert ScalarText(h, a, c) == text;
    TerminalRendersScalar(h, c, a, 1, None, visited);
    NoParentNoTrim(text, c);
  }

  /** The same string object met again one level down prints as a cycle marker. */
  lemma RepeatedStringElement(h: Heap, c: Settings, a: Ref, tag: string, visited: set<Ref>)
    requires Closed(h) && PlainStrings(c) && a in h && h[a].runtimeType == StringType && a in visited
    ensures Labelled(h, c, Obj(a), tag, 0, visited) == Done("\t" + tag + "[CyclicRef String]\n", visited)
  {
    RevisitRendersCycleMarker(h, c, a, 1, None, visited);
    assert Tabs(1) == "\t";
    assert "\t" + tag + ("[CyclicRef " + "String" + "]" + NewLine) == "\t" + tag + "[CyclicRef String]\n";
  }

  /** A List<String> object of the graph holding exactly the two given elements. */
  ghost predicate TagList(h: Heap, r: Ref, a: Ref, b: Ref) {
    r in h && h[r].runtimeType.isGeneric && h[r].runtimeType.name == "List`1" &&
    h[r].runtimeType.args == [StringType] && !h[r].runtimeType.isEnum && !h[r].runtimeType.isValueType &&
    h[r].shape == Sequence([Obj(a), Obj(b)])
  }

  /** No generic type is terminal unless it is an enum. */
  lemma GenericIsNotTerminal(t: TypeDesc)
    requires t.isGeneric && !t.isEnum
    ensures !IsTerminal(t)
  {
    if t in TerminalTypes {
      TerminalTypesAreStringOrStructs(t);
    }
  }

  lemma TagListHeader(h: Heap, r: Ref, a: Ref, b: Ref)
    requires Closed(h) && TagList(h, r, a, b)
    ensures RenderSequence(h, Defaults, r, 0, {r})
            == Then("List<String>\n", RenderItems(h, Defaults, [Obj(a), Obj(b)], 0, 0, {r}))
  {
    TagsTypeName(h[r].runtimeType);
    assert HeaderLine(h[r].runtimeType) == Ok("List<String>" + NewLine);
    assert "List<String>" + NewLine == "List<String>\n";
  }

  /** Walking the list: not guarded, not terminal, no formatter, so its header then its items. */
  lemma TagListIsWalked(h: Heap, r: Ref, a: Ref, b: Ref)
    requires Closed(h) && TagList(h, r, a, b)
    ensures Render(h, Defaults, Obj(r), 0, None, {})
            == Then("List<String>\n", RenderItems(h, Defaults, [Obj(a), Obj(b)], 0, 0, {r}))
  {
    var t := h[r].runtimeType;
    GenericIsNotTerminal(t);
    assert t != StringType;
    SequenceIsWalked(h, Defaults, r, 0, None, {});
    assert Mark(t, r, {}) == {r};
    TagListHeader(h, r, a, b);
  }

  /** A two-element sequence prints its elements' lines one after the other. */
  lemma TwoItems(h: Heap, c: Settings, x: Value, y: Value, i: nat, level: nat, visited: set<Ref>,
                 tx: string, ty: string, v1: set<Ref>, v2: set<Ref>)
    requires Closed(h) && ValueIn(h, x) && ValueIn(h, y) && level < c.maxNestingLevel
    requires Labelled(h, c, x, ItemLabel(i), level, visited) == Done(tx, v1)
    requires Labelled(h, c, y, ItemLabel(i + 1), level, v1) == Done(ty, v2)
    ensures RenderItems(h, c, [x, y], i, level, visited) == Done(tx + ty, v2)
  {
    assert [x, y][1..] == [y];
    assert [y][1..] == [];
    assert RenderItems(h, c, [y], i + 1, level, v1) == Done(ty + "", v2);
    assert ty + "" == ty;
  }

  lemma TwoTags(h: Heap, c: Settings, r: Ref, a: Ref, b: Ref, s1: string, s2: string)
    requires Closed(h) && PlainStrings(c) && StringNode(h, a, s1) && StringNode(h, b, s2)
    requires r != a && r != b && a != b
    ensures RenderItems(h, c, [Obj(a), Obj(b)], 0, 0, {r})
            == Done(("\t" + ItemLabel(0) + s1 + "\n") + ("\t" + ItemLabel(1) + s2 + "\n"), {r} + {a} + {b})
  {
    StringElement(h, c, a, s1, ItemLabel(0), {r});
    StringElement(h, c, b, s2, ItemLabel(1), {r} + {a});
    TwoItems(h, c, Obj(a), Obj(b), 0, 0, {r}, "\t" + ItemLabel(0) + s1 + "\n", "\t" + ItemLabel(1) + s2 + "\n",
             {r} + {a}, {r} + {a} + {b});
  }

  lemma TagLines(s1: string, s2: string)
    ensures ("\t" + ItemLabel(0) + s1 + "\n") + ("\t" + ItemLabel(1) + s2 + "\n")
            == ("\t[0] = " + s1 + "\n") + ("\t[1] = " + s2 + "\n")
  {
    IndexLabels();
    assert "\t" + "[0] = " == "\t[0] = " && "\t" + "[1] = " == "\t[1] = ";
  }

  lemma RepeatedTagLines(s1: string)
    ensures ("\t" + ItemLabel(0) + s1 + "\n") + ("\t" + ItemLabel(1) + "[CyclicRef String]\n")
            == ("\t[0] = " + s1 + "\n") + ("\t[1] = " + "[CyclicRef String]\n")
  {
    IndexLabels();
    assert "\t" + "[0] = " == "\t[0] = " && "\t" + "[1] = " == "\t[1] = ";
  }

  /** Two distinct strings are listed under "[0] = " and "[1] = ", and all three objects end up
      visited. */
  lemma TagsListed(h: Heap, r: Ref, a: Ref, b: Ref, s1: string, s2: string)
    requires Closed(h) && TagList(h, r, a, b) && StringNode(h, a, s1) && StringNode(h, b, s2)
    requires r != a && r != b && a != b
    ensures Render(h, Defaults, Obj(r), 0, None, {})
            == Done("List<String>\n" + (("\t[0] = " + s1 + "\n") + ("\t[1] = " + s2 + "\n")), {r, a, b})
  {
    TagListIsWalked(h, r, a, b);
    TwoTags(h, Defaults, r, a, b, s1, s2);
    TagLines(s1, s2);
    assert {r} + {a} + {b} == {r, a, b};
  }

  lemma SameTagTwice(h: Heap, c: Settings, r: Ref, a: Ref, s1: string)
    requires Closed(h) && PlainStrings(c) && StringNode(h, a, s1) && r != a
    ensures RenderItems(h, c, [Obj(a), Obj(a)], 0, 0, {r})
            == Done(("\t" + ItemLabel(0) + s1 + "\n") + ("\t" + ItemLabel(1) + "[CyclicRef String]\n"), {r} + {a})
  {
    StringElement(h, c, a, s1, ItemLabel(0), {r});
    RepeatedStringElement(h, c, a, ItemLabel(1), {r} + {a});
    TwoItems(h, c, Obj(a), Obj(a), 0, 0, {r}, "\t" + ItemLabel(0) + s1 + "\n", "\t" + ItemLabel(1) + "[CyclicRef String]\n",
             {r} + {a}, {r} + {a});
  }

  /** The same string object listed twice: within one call its second appearance is a revisit,
      so it prints as "[CyclicRef String]". */
  lemma RepeatedTagIsCyclicRef(h: Heap, r: Ref, a: Ref, s1: string)
    requires Closed(h) && TagList(h, r, a, a) && StringNode(h, a, s1) && r != a
    ensures Render(h, Defaults, Obj(r), 0, None, {})
            == Done("List<String>\n" + (("\t[0] = " + s1 + "\n") + ("\t[1] = " + "[CyclicRef String]\n")), {r, a})
  {
    TagListIsWalked(h, r, a, a);
    SameTagTwice(h, Defaults, r, a, s1);
    RepeatedTagLines(s1);
    assert {r} + {a} == {r, a};
  }

  /** A generic type whose Name carries no arity backtick cannot be named: the slice throws. */
  lemma GenericNameWithoutBacktickThrows()
    ensures FormatTypeName(TypeDesc("", "Odd", true, [Int32], false, false, None, "")) == Thrown(ArgumentOutOfRangeException)
  {
  }

  const Name: MemberKey := MemberKey(Person, "Name", Property, StringType)
  const IQ: MemberKey := MemberKey(Person, "IQ", Property, Int32)
  const Age: MemberKey := MemberKey(Person, "Age", Property, Int32)

  lemma NotEndingInNewLine(s: string)
    requires |s| > 0 && s[|s| - 1] != '\n'
    ensures !EndsWith(s, NewLine)
  {
    assert s[|s| - 1..][0] == s[|s| - 1];
  }

  /** A member's own trim length: "Fai" cut to 2 is "Fa". */
  lemma MemberTrimmed()
    ensures ApplyTrimming("Fai", Some(Name), Defaults.(trimmedMembers := map[Name := 2])) == Ok("Fa\n")
  {
    var c := Defaults.(trimmedMembers := map[Name := 2]);
    assert Name in c.trimmedMembers;
    assert TrimLimit(Some(Name), c) == Some(2);
    assert Truncate("Fai", 2) == "Fa";
    NotEndingInNewLine("Fa");
    assert EnsureNewLine("Fa") == "Fa" + NewLine;
    assert "Fa" + NewLine == "Fa\n";
  }

  /** A length registered for Int32 applies to every Int32 member that has none of its own:
      "20" cut to 1 is "2". */
  lemma TypeTrimmed()
    ensures ApplyTrimming("20", Some(Age), Defaults.(trimmedTypes := map[Int32 := 1])) == Ok("2\n")
  {
    var c := Defaults.(trimmedTypes := map[Int32 := 1]);
    assert Age !in c.trimmedMembers && Age.declaredType in c.trimmedTypes;
    assert TrimLimit(Some(Age), c) == Some(1);
    assert Truncate("20", 1) == "2";
    NotEndingInNewLine("2");
    assert "2" + NewLine == "2\n";
  }

  /** A length registered for another member leaves this one whole. */
  lemma OtherMemberUntrimmed()
    ensures ApplyTrimming("20", Some(Age), Defaults.(trimmedMembers := map[IQ := 2])) == Ok("20\n")
  {
    var c := Defaults.(trimmedMembers := map[IQ := 2]);
    assert Age != IQ;
    assert TrimLimit(Some(Age), c) == None;
    NotEndingInNewLine("20");
    assert "20" + NewLine == "20\n";
  }

  /** A negative length stored through StintingPrintConfig makes printing the member throw. */
  lemma NegativeTrimThrows()
    ensures ApplyTrimming("Fai", Some(Name), Defaults.(trimmedMembers := map[Name := -1])) == Thrown(ArgumentOutOfRangeException)
  {
  }

  /** With MaxNestingLevel 2, a friend's friend is two levels down and prints only the marker. */
  lemma FriendOfFriendPastLimit(h: Heap, r: Ref, visited: set<Ref>)
    requires Closed(h) && r in h && h[r].runtimeType == Person
    ensures Render(h, Defaults.(maxNestingLevel := 2), Obj(r), 2, Some(Friend), visited)
            == Done("[Person" + DepthText + "]\n", visited)
  {
    PersonIsNotTerminal();
    DepthLimitRendersMarker(h, Defaults.(maxNestingLevel := 2), r, 2, Some(Friend), visited);
  }

  /** A Person whose only member, Friend, refers to `q`. */
  ghost predicate FriendOf(h: Heap, r: Ref, q: Ref) {
    r in h && h[r].runtimeType == Person && h[r].shape == Composite([Member(Friend, true, Returns(Obj(q)))], [])
  }

  /** Walking such a Person: its header, then the Friend line carrying the friend's rendering one
      level down. */
  lemma FriendOfWalked(h: Heap, c: Settings, r: Ref, q: Ref, level: nat, parent: Option<MemberKey>,
                       visited: set<Ref>, t: string, after: set<Ref>)
    requires Closed(h) && PlainPersons(c) && FriendOf(h, r, q) && r !in visited && level < c.maxNestingLevel
    requires Render(h, c, Obj(q), level + 1, Some(Friend), visited + {r}) == Done(t, after)
    ensures Render(h, c, Obj(r), level, parent, visited) == Done("Person\n" + (Tabs(level + 1) + "Friend = " + t), after)
  {
    assert NodeIn(h, h[r]);
    PersonIsWalked(h, c, r, level, parent, visited);
    FriendRecurses(h, c, q, level, visited + {r});
    var line := Tabs(level + 1) + "Friend = " + t;
    assert [Member(Friend, true, Returns(Obj(q)))][1..] == [];
    assert RenderProperties(h, c, [Member(Friend, true, Returns(Obj(q)))], level, visited + {r}) == Done(line + "", after);
    assert line + "" == line;
    assert "Person\n" + line + "" == "Person\n" + line;
  }

  lemma ChainText(marker: string)
    ensures "Person\n" + (Tabs(1) + "Friend = " + ("Person\n" + (Tabs(2) + "Friend = " + marker)))
            == "Person\n\tFriend = Person\n\t\tFriend = " + marker
  {
    assert Tabs(1) == "\t" && Tabs(2) == "\t\t";
  }

  /** At the limit a Person prints only the nesting marker, under any configuration that leaves
      Person alone. */
  lemma PersonAtLimit(h: Heap, c: Settings, r: Ref, level: nat, visited: set<Ref>)
    requires Closed(h) && PlainPersons(c) && r in h && h[r].runtimeType == Person && level >= c.maxNestingLevel
    ensures Render(h, c, Obj(r), level, Some(Friend), visited) == Done("[Person" + DepthText + "]\n", visited)
  {
    PersonIsNotTerminal();
    DepthLimitRendersMarker(h, c, r, level, Some(Friend), visited);
  }

  /** The friend, one level above the limit: its header, then its own Friend line with the
      marker. */
  lemma FriendBelowLimit(h: Heap, c: Settings, q: Ref, s: Ref, level: nat, visited: set<Ref>, marker: string)
    requires Closed(h) && PlainPersons(c) && level + 1 == c.maxNestingLevel
    requires FriendOf(h, q, s) && q !in visited && s in h && h[s].runtimeType == Person
    requires marker == "[Person" + DepthText + "]\n"
    ensures Render(h, c, Obj(q), level, Some(Friend), visited)
            == Done("Person\n" + (Tabs(level + 1) + "Friend = " + marker), visited + {q})
  {
    PersonAtLimit(h, c, s, level + 1, visited + {q});
    FriendOfWalked(h, c, q, s, level, Some(Friend), visited, marker, visited + {q});
  }

  lemma FriendChain(h: Heap, c: Settings, p: Ref, q: Ref, s: Ref, marker: string)
    requires Closed(h) && PlainPersons(c) && c.maxNestingLevel == 2
    requires FriendOf(h, p, q) && FriendOf(h, q, s) && p != q && s in h && h[s].runtimeType == Person
    requires marker == "[Person" + DepthText + "]\n"
    ensures Render(h, c, Obj(p), 0, None, {})
            == Done("Person\n" + (Tabs(1) + "Friend = " + ("Person\n" + (Tabs(2) + "Friend = " + marker))), {p, q})
  {
    FriendBelowLimit(h, c, q, s, 1, {p}, marker);
    assert {} + {p} == {p};
    FriendOfWalked(h, c, p, q, 0, None, {}, "Person\n" + (Tabs(2) + "Friend = " + marker), {p} + {q});
    assert {p} + {q} == {p, q};
  }

  /** The test's chain with MaxNestingLevel 2: the root and its friend are walked, and the friend's
      friend, two levels down, prints only the nesting marker; it may even be the root itself,
      since the limit is checked before the visited set. */
  lemma FriendChainStopsAtLimit(h: Heap, p: Ref, q: Ref, s: Ref)
    requires Closed(h) && FriendOf(h, p, q) && FriendOf(h, q, s) && p != q
    requires s in h && h[s].runtimeType == Person
    ensures Render(h, Defaults.(maxNestingLevel := 2), Obj(p), 0, None, {})
            == Done("Person\n\tFriend = Person\n\t\tFriend = " + ("[Person" + DepthText + "]\n"), {p, q})
  {
    DefaultsArePlain(2);
    FriendChain(h, Defaults.(maxNestingLevel := 2), p, q, s, "[Person" + DepthText + "]\n");
    ChainText("[Person" + DepthText + "]\n");
  }

  /** Two classes both named Inner, nested in different outer classes of one namespace. */
  const Outer1: TypeDesc := TypeDesc("NS", "Outer1", false, [], false, false, None, "App")
  const Outer2: TypeDesc := TypeDesc("NS", "Outer2", false, [], false, false, None, "App")
  const Inner1: TypeDesc := TypeDesc("NS", "Inner", false, [], false, false, Some(Outer1), "App")
  const Inner2: TypeDesc := TypeDesc("NS", "Inner", false, [], false, false, Some(Outer2), "App")

  /** The two are different types that print under the same name. */
  lemma NestedNamesakesAreDistinct()
    ensures Inner1 != Inner2
    ensures FormatTypeName(Inner1) == FormatTypeName(Inner2) == Ok("Inner")
  {
  }

  /** Excluding Outer1.Inner leaves an Outer2.Inner object to be printed. */
  lemma ExcludingOneNamesakeKeepsTheOther(h: Heap, c: Settings, r: Ref, level: nat)
    requires r in h && h[r].runtimeType == Inner2
    requires c.excludedTypes == {Inner1} && level < c.maxNestingLevel
    ensures !Guarded(h, c, Obj(r), level)
  {
  }
}
