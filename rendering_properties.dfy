/** What every Serialize call guarantees, proved once over the Rendering functions by mutual
    induction along their own recursion: the visited set only grows, only reference-type objects
    ever enter it, and everything appended is made of whole lines. */
module RenderingProperties {
  import opened Runtime
  import opened Strings
  import opened Configuration
  import opened TypeNames
  import opened Formatting
  import opened Rendering

  /** `after` is `before` plus reference-type objects of the heap: nothing is ever un-marked and
      no value-type object is ever marked. */
  ghost predicate Tracked(h: Heap, before: set<Ref>, after: set<Ref>) {
    before <= after && forall r | r in after && r !in before :: r in h && !h[r].runtimeType.isValueType
  }

  /** A completed outcome keeps Tracked and its text is whole lines; with `line`, at least one. */
  ghost predicate Sound(h: Heap, before: set<Ref>, o: Outcome, line: bool) {
    o.Done? ==> Tracked(h, before, o.visited) && (if line then EndsWith(o.text, NewLine) else Lines(o.text))
  }

  lemma MarkerEndsWithNewLine(t: TypeDesc, prefix: string, suffix: string)
    ensures Marker(t, prefix, suffix).Ok? ==> EndsWith(Marker(t, prefix, suffix).value, NewLine)
  {
    if FormatTypeName(t).Ok? {
      EndsWithConcat(prefix + FormatTypeName(t).value + suffix, NewLine, NewLine);
    }
  }

  lemma HeaderEndsWithNewLine(t: TypeDesc)
    ensures HeaderLine(t).Ok? ==> EndsWith(HeaderLine(t).value, NewLine)
  {
    if FormatTypeName(t).Ok? {
      EndsWithConcat(FormatTypeName(t).value, NewLine, NewLine);
    }
  }

  /** Every value renders to one or more whole lines; the visited set only grows, by reference
      types only; and a non-null, non-excluded reference object within the depth limit is in the
      visited set afterwards, whether it was entered now or before. */
  lemma {:induction false} RenderSound(h: Heap, c: Settings, v: Value, level: nat, parent: Option<MemberKey>,
                                       visited: set<Ref>)
    requires Closed(h) && ValueIn(h, v)
    ensures Sound(h, visited, Render(h, c, v, level, parent, visited), true)
    ensures (Render(h, c, v, level, parent, visited).Done? && !Guarded(h, c, v, level) &&
             !h[v.r].runtimeType.isValueType) ==> v.r in Render(h, c, v, level, parent, visited).visited
    decreases c.maxNestingLevel - level, 3, 0
  {
    if Guarded(h, c, v, level) {
      if v.Null? {
        EndsWithConcat("null", NewLine, NewLine);
      } else if h[v.r].runtimeType in c.excludedTypes {
        EndsWithConcat("[Excluded Type]", NewLine, NewLine);
      } else {
        MarkerEndsWithNewLine(h[v.r].runtimeType, "[", DepthText + "]");
      }
    } else {
      var r := v.r;
      var t := h[r].runtimeType;
      if Revisit(t, r, visited) {
        MarkerEndsWithNewLine(t, "[CyclicRef ", "]");
      } else {
        var vis := Mark(t, r, visited);
        if t in c.customTypeSerializers || IsTerminal(t) {
        } else if h[r].shape.Dictionary? {
          DictionarySound(h, c, r, level, vis);
        } else if h[r].shape.Sequence? && t != StringType {
          SequenceSound(h, c, r, level, vis);
        } else {
          CompositeSound(h, c, r, level, vis);
        }
      }
    }
  }

  lemma {:induction false} DictionarySound(h: Heap, c: Settings, r: Ref, level: nat, visited: set<Ref>)
    requires Closed(h) && r in h && h[r].shape.Dictionary? && level < c.maxNestingLevel
    ensures Sound(h, visited, RenderDictionary(h, c, r, level, visited), true)
    decreases c.maxNestingLevel - level, 2, 0
  {
    assert NodeIn(h, h[r]);
    var t := h[r].runtimeType;
    HeaderEndsWithNewLine(t);
    var es := h[r].shape.entries;
    EntriesSound(h, c, es, level, visited);
    var o := RenderEntries(h, c, es, level, visited);
    if HeaderLine(t).Ok? && o.Done? {
      LinesAfter(HeaderLine(t).value, o.text);
    }
  }

  lemma {:induction false} EntriesSound(h: Heap, c: Settings, es: seq<Entry>, level: nat, visited: set<Ref>)
    requires Closed(h) && EntriesIn(h, es) && level < c.maxNestingLevel
    ensures Sound(h, visited, RenderEntries(h, c, es, level, visited), false)
    decreases c.maxNestingLevel - level, 1, |es|
  {
    if es != [] {
      EntrySound(h, c, es[0], level, visited);
      var o := RenderEntry(h, c, es[0], level, visited);
      if o.Done? {
        EntriesSound(h, c, es[1..], level, o.visited);
        var rest := RenderEntries(h, c, es[1..], level, o.visited);
        if rest.Done? {
          LinesConcat(o.text, rest.text);
        }
      }
    }
  }

  lemma {:induction false} EntrySound(h: Heap, c: Settings, e: Entry, level: nat, visited: set<Ref>)
    requires Closed(h) && ValueIn(h, e.key) && ValueIn(h, e.value) && level < c.maxNestingLevel
    ensures Sound(h, visited, RenderEntry(h, c, e, level, visited), true)
    decreases c.maxNestingLevel - level, 1, 0
  {
    LabelledSound(h, c, e.key, "Key = ", level, visited);
    var k := Labelled(h, c, e.key, "Key = ", level, visited);
    if k.Done? {
      LabelledSound(h, c, e.value, "Value = ", level, k.visited);
      var x := Labelled(h, c, e.value, "Value = ", level, k.visited);
      if x.Done? {
        EndsWithConcat(k.text, x.text, NewLine);
      }
    }
  }

  lemma {:induction false} LabelledSound(h: Heap, c: Settings, v: Value, tag: string, level: nat,
                                         visited: set<Ref>)
    requires Closed(h) && ValueIn(h, v) && level < c.maxNestingLevel
    ensures Sound(h, visited, Labelled(h, c, v, tag, level, visited), true)
    decreases c.maxNestingLevel - level, 0, 0
  {
    RenderSound(h, c, v, level + 1, None, visited);
    var o := Render(h, c, v, level + 1, None, visited);
    if o.Done? {
      EndsWithConcat(Tabs(level + 1) + tag, o.text, NewLine);
    }
  }

  lemma {:induction false} SequenceSound(h: Heap, c: Settings, r: Ref, level: nat, visited: set<Ref>)
    requires Closed(h) && r in h && h[r].shape.Sequence? && level < c.maxNestingLevel
    ensures Sound(h, visited, RenderSequence(h, c, r, level, visited), true)
    decreases c.maxNestingLevel - level, 2, 0
  {
    assert NodeIn(h, h[r]);
    var t := h[r].runtimeType;
    HeaderEndsWithNewLine(t);
    var items := h[r].shape.items;
    ItemsSound(h, c, items, 0, level, visited);
    var o := RenderItems(h, c, items, 0, level, visited);
    if HeaderLine(t).Ok? && o.Done? {
      LinesAfter(HeaderLine(t).value, o.text);
    }
  }

  lemma {:induction false} ItemsSound(h: Heap, c: Settings, items: seq<Value>, i: nat, level: nat,
                                      visited: set<Ref>)
    requires Closed(h) && ValuesIn(h, items) && level < c.maxNestingLevel
    ensures Sound(h, visited, RenderItems(h, c, items, i, level, visited), false)
    decreases c.maxNestingLevel - level, 1, |items|
  {
    if items != [] {
      LabelledSound(h, c, items[0], ItemLabel(i), level, visited);
      var o := Labelled(h, c, items[0], ItemLabel(i), level, visited);
      if o.Done? {
        ItemsSound(h, c, items[1..], i + 1, level, o.visited);
        var rest := RenderItems(h, c, items[1..], i + 1, level, o.visited);
        if rest.Done? {
          LinesConcat(o.text, rest.text);
        }
      }
    }
  }

  lemma {:induction false} CompositeSound(h: Heap, c: Settings, r: Ref, level: nat, visited: set<Ref>)
    requires Closed(h) && r in h && h[r].shape.Composite? && level < c.maxNestingLevel
    ensures Sound(h, visited, RenderComposite(h, c, r, level, visited), true)
    decreases c.maxNestingLevel - level, 2, 0
  {
    assert NodeIn(h, h[r]);
    var t := h[r].runtimeType;
    HeaderEndsWithNewLine(t);
    var ps := h[r].shape.properties;
    var fs := h[r].shape.fields;
    PropertiesSound(h, c, ps, level, visited);
    var p := RenderProperties(h, c, ps, level, visited);
    if HeaderLine(t).Ok? && p.Done? {
      LinesAfter(HeaderLine(t).value, p.text);
      FieldsSound(h, c, fs, level, p.visited);
      var f := RenderFields(h, c, fs, level, p.visited);
      if f.Done? {
        LinesAfter(HeaderLine(t).value + p.text, f.text);
      }
    }
  }

  lemma {:induction false} PropertiesSound(h: Heap, c: Settings, ps: seq<Member>, level: nat, visited: set<Ref>)
    requires Closed(h) && MembersIn(h, ps) && level < c.maxNestingLevel
    ensures Sound(h, visited, RenderProperties(h, c, ps, level, visited), false)
    decreases c.maxNestingLevel - level, 1, |ps|
  {
    if ps != [] {
      if !ps[0].canRead {
        PropertiesSound(h, c, ps[1..], level, visited);
      } else {
        MemberSound(h, c, ps[0], level, visited);
        var o := RenderMember(h, c, ps[0], level, visited);
        if o.Done? {
          PropertiesSound(h, c, ps[1..], level, o.visited);
          var rest := RenderProperties(h, c, ps[1..], level, o.visited);
          if rest.Done? {
            LinesConcat(o.text, rest.text);
          }
        }
      }
    }
  }

  lemma {:induction false} FieldsSound(h: Heap, c: Settings, fs: seq<Member>, level: nat, visited: set<Ref>)
    requires Closed(h) && MembersIn(h, fs) && level < c.maxNestingLevel
    ensures Sound(h, visited, RenderFields(h, c, fs, level, visited), false)
    decreases c.maxNestingLevel - level, 1, |fs|
  {
    if fs != [] {
      MemberSound(h, c, fs[0], level, visited);
      var o := RenderMember(h, c, fs[0], level, visited);
      if o.Done? {
        FieldsSound(h, c, fs[1..], level, o.visited);
        var rest := RenderFields(h, c, fs[1..], level, o.visited);
        if rest.Done? {
          LinesConcat(o.text, rest.text);
        }
      }
    }
  }

  lemma {:induction false} MemberSound(h: Heap, c: Settings, m: Member, level: nat, visited: set<Ref>)
    requires Closed(h) && ReadIn(h, m.read) && level < c.maxNestingLevel
    ensures Sound(h, visited, RenderMember(h, c, m, level, visited), false)
    decreases c.maxNestingLevel - level, 0, 0
  {
    var k := m.key;
    if k !in c.excludedMember && k.declaredType !in c.excludedTypes {
      var prefix := Tabs(level + 1) + k.name + " = ";
      var value := SafeGet(m.read);
      if k in c.customMemberSerializers {
        var text := if value.Null? then "null" else c.customMemberSerializers[k](h, value.r);
        var s := ApplyTrimming(text, Some(k), c);
        if s.Ok? {
          EndsWithConcat(prefix + TrimLineEnd(s.value), NewLine, NewLine);
        }
      } else {
        RenderSound(h, c, value, level + 1, Some(k), visited);
        var o := Render(h, c, value, level + 1, Some(k), visited);
        if o.Done? {
          EndsWithConcat(prefix, o.text, NewLine);
        }
      }
    }
  }

  /** null prints as the one line "null", at any depth and whatever was visited. */
  lemma NullRendersNull(h: Heap, c: Settings, level: nat, parent: Option<MemberKey>, visited: set<Ref>)
    requires Closed(h)
    ensures Render(h, c, Null, level, parent, visited) == Done("null" + NewLine, visited)
  {
  }

  /** An object whose runtime type is excluded prints as the one line "[Excluded Type]"; the
      exclusion wins over the depth limit and over a revisit, and marks nothing. */
  lemma ExcludedTypeRendersMarker(h: Heap, c: Settings, r: Ref, level: nat, parent: Option<MemberKey>,
                                  visited: set<Ref>)
    requires Closed(h) && r in h && h[r].runtimeType in c.excludedTypes
    ensures Render(h, c, Obj(r), level, parent, visited) == Done("[Excluded Type]" + NewLine, visited)
  {
  }

  /** At or past the nesting limit a non-null, non-excluded object prints as one marker line naming
      its type and nothing deeper; it enters nothing into the visited set, not even itself. */
  lemma DepthLimitRendersMarker(h: Heap, c: Settings, r: Ref, level: nat, parent: Option<MemberKey>,
                                visited: set<Ref>)
    requires Closed(h) && r in h && h[r].runtimeType !in c.excludedTypes && level >= c.maxNestingLevel
    ensures FormatTypeName(h[r].runtimeType).Ok? ==>
              Render(h, c, Obj(r), level, parent, visited)
              == Done("[" + FormatTypeName(h[r].runtimeType).value + " превышен уровень вложенности]" + NewLine, visited)
    ensures FormatTypeName(h[r].runtimeType).Thrown? ==> Render(h, c, Obj(r), level, parent, visited) == Aborted
  {
    if FormatTypeName(h[r].runtimeType).Ok? {
      assert "[" + FormatTypeName(h[r].runtimeType).value + DepthText + "]" ==
             "[" + FormatTypeName(h[r].runtimeType).value + " превышен уровень вложенности]";
    }
  }

  /** Entering a reference-type object a second time within one call prints "[CyclicRef <type>]"
      and nothing more, whatever its shape and whatever formatter is registered for its type. */
  lemma RevisitRendersCycleMarker(h: Heap, c: Settings, r: Ref, level: nat, parent: Option<MemberKey>,
                                  visited: set<Ref>)
    requires Closed(h) && r in h && r in visited && !h[r].runtimeType.isValueType
    requires h[r].runtimeType !in c.excludedTypes && level < c.maxNestingLevel
    ensures FormatTypeName(h[r].runtimeType).Ok? ==>
              Render(h, c, Obj(r), level, parent, visited)
              == Done("[CyclicRef " + FormatTypeName(h[r].runtimeType).value + "]" + NewLine, visited)
    ensures FormatTypeName(h[r].runtimeType).Thrown? ==> Render(h, c, Obj(r), level, parent, visited) == Aborted
  {
  }

  /** Once an object has been entered, every later entry of it in the same call, at any depth
      within the limit, is a cycle marker: the visited set is never un-marked. */
  lemma EnteredObjectsStayMarked(h: Heap, c: Settings, v: Value, level: nat, parent: Option<MemberKey>,
                                 visited: set<Ref>, r: Ref, level2: nat, parent2: Option<MemberKey>)
    requires Closed(h) && ValueIn(h, v) && r in h && r in visited && !h[r].runtimeType.isValueType
    requires Render(h, c, v, level, parent, visited).Done?
    requires h[r].runtimeType !in c.excludedTypes && level2 < c.maxNestingLevel
    ensures var after := Render(h, c, v, level, parent, visited).visited;
            Render(h, c, Obj(r), level2, parent2, after) == Emit(CycleMarker(h[r].runtimeType), after)
  {
    RenderSound(h, c, v, level, parent, visited);
  }

  /** Value-type objects are never tracked: entering one never prints a cycle marker, however
      often the same boxed value has been met. */
  lemma ValueTypesNeverCycle(h: Heap, c: Settings, r: Ref, level: nat, parent: Option<MemberKey>,
                             visited: set<Ref>)
    requires Closed(h) && r in h && h[r].runtimeType.isValueType
    ensures !Revisit(h[r].runtimeType, r, visited)
    ensures Mark(h[r].runtimeType, r, visited) == visited
  {
  }

  /** A terminal object (a built-in scalar or an enum, String included, for all that a string is
      also enumerable) is printed as its formatted text, never walked, when no formatter is
      registered for its type; later elements of the chain are never consulted. */
  lemma TerminalRendersScalar(h: Heap, c: Settings, r: Ref, level: nat, parent: Option<MemberKey>,
                              visited: set<Ref>)
    requires Closed(h) && r in h && IsTerminal(h[r].runtimeType)
    requires !Guarded(h, c, Obj(r), level) && !Revisit(h[r].runtimeType, r, visited)
    requires h[r].runtimeType !in c.customTypeSerializers
    ensures Render(h, c, Obj(r), level, parent, visited)
            == Emit(ApplyTrimming(ScalarText(h, r, c), parent, c), Mark(h[r].runtimeType, r, visited))
  {
  }

  /** The custom type formatter is consulted before the terminal check, so on the way through
      Serialize the formatter branch inside FormatScalar never decides anything: whenever
      FormatScalar is reached, ScalarText is the object's own text. */
  lemma FormatScalarFormatterBranchUnused(h: Heap, c: Settings, r: Ref)
    requires r in h && h[r].runtimeType !in c.customTypeSerializers
    ensures ScalarText(h, r, c) ==
            if h[r].runtimeType != StringType && h[r].runtimeType in c.culturesForTypes && h[r].formattable
            then h[r].cultured(c.culturesForTypes[h[r].runtimeType])
            else h[r].text
  {
  }

  /** A culture registered for a type changes only IFormattable values of exactly that type: a
      string, or a non-IFormattable value, prints its own text whatever cultures are registered. */
  lemma CultureOnlyForFormattable(h: Heap, c: Settings, r: Ref, cultures: map<TypeDesc, Culture>)
    requires r in h && h[r].runtimeType !in c.customTypeSerializers
    requires h[r].runtimeType == StringType || !h[r].formattable
    ensures ScalarText(h, r, c) == ScalarText(h, r, c.(culturesForTypes := cultures)) == h[r].text
  {
  }

  /** Keys, values and elements are serialized with no parent member, so no trim length ever
      applies to them: their terminal text is only made to end in NewLine. */
  lemma NoParentNoTrim(s: string, c: Settings)
    ensures ApplyTrimming(s, None, c) == Ok(EnsureNewLine(s))
  {
  }

  /** A member's own trim length takes precedence over the one for its declared type: with a
      member entry present, the type table does not matter. */
  lemma MemberTrimOverridesType(m: MemberKey, c: Settings, types: map<TypeDesc, int>)
    requires m in c.trimmedMembers
    ensures TrimLimit(Some(m), c) == TrimLimit(Some(m), c.(trimmedTypes := types)) == Some(c.trimmedMembers[m])
  {
  }

  /** Trimming keeps a prefix of the text: at most `n` characters of it, then the NewLine. */
  lemma TrimmedIsPrefix(s: string, parent: Option<MemberKey>, c: Settings)
    requires ApplyTrimming(s, parent, c).Ok? && TrimLimit(parent, c).Some?
    ensures var t := ApplyTrimming(s, parent, c).value;
            var n := TrimLimit(parent, c).value;
            |t| <= n + |NewLine| && (t[..|t| - 1] <= s || t <= s)
  {
  }

  /** Trimming again changes nothing: the result of ApplyTrimming is a fixed point of it. */
  lemma {:induction false} ApplyTrimmingIdempotent(s: string, parent: Option<MemberKey>, c: Settings)
    requires ApplyTrimming(s, parent, c).Ok?
    ensures ApplyTrimming(ApplyTrimming(s, parent, c).value, parent, c) == ApplyTrimming(s, parent, c)
  {
    var t := ApplyTrimming(s, parent, c).value;
    match TrimLimit(parent, c)
    case None =>
    case Some(n) =>
      var p := Truncate(s, n);
      if EndsWith(p, NewLine) {
        assert t == p && |t| <= n;
      } else {
        assert t == p + NewLine;
        if |p| == n {
          assert Truncate(t, n) == p;
        } else {
          assert |t| <= n;
        }
      }
  }

  /** A member that is excluded, or whose declared type is excluded, prints nothing at all: not
      even its name, and nothing is marked. */
  lemma ExcludedMemberSilent(h: Heap, c: Settings, m: Member, level: nat, visited: set<Ref>)
    requires Closed(h) && ReadIn(h, m.read) && level < c.maxNestingLevel
    requires m.key in c.excludedMember || m.key.declaredType in c.excludedTypes
    ensures RenderMember(h, c, m, level, visited) == Done("", visited)
  {
  }

  /** A member formatter takes precedence over the member's type formatter and over walking the
      value: with one registered, the type formatters do not matter and nothing is marked. */
  lemma MemberFormatterOverridesType(h: Heap, c: Settings, m: Member, level: nat, visited: set<Ref>,
                                     types: map<TypeDesc, Formatter>)
    requires Closed(h) && ReadIn(h, m.read) && level < c.maxNestingLevel
    requires m.key in c.customMemberSerializers
    ensures RenderMember(h, c, m, level, visited) == RenderMember(h, c.(customTypeSerializers := types), m, level, visited)
    ensures RenderMember(h, c, m, level, visited).Done? ==> RenderMember(h, c, m, level, visited).visited == visited
  {
    var c2 := c.(customTypeSerializers := types);
    assert c2.trimmedMembers == c.trimmedMembers && c2.trimmedTypes == c.trimmedTypes;
    assert c2.customMemberSerializers == c.customMemberSerializers;
    assert TrimLimit(Some(m.key), c2) == TrimLimit(Some(m.key), c);
  }

  /** A member formatter's line ends in exactly one line break, however many its text ended in. */
  lemma {:induction false} MemberFormatterLine(h: Heap, c: Settings, m: Member, level: nat, visited: set<Ref>)
    requires Closed(h) && ReadIn(h, m.read) && level < c.maxNestingLevel
    requires m.key in c.customMemberSerializers && m.key !in c.excludedMember && m.key.declaredType !in c.excludedTypes
    ensures var o := RenderMember(h, c, m, level, visited);
            o.Done? ==> |o.text| >= 2 && o.text[|o.text| - 1] == '\n' && !IsLineBreak(o.text[|o.text| - 2])
  {
    var k := m.key;
    var prefix := Tabs(level + 1) + k.name + " = ";
    assert prefix[|prefix| - 1] == ' ';
    var value := SafeGet(m.read);
    var text := if value.Null? then "null" else c.customMemberSerializers[k](h, value.r);
    var s := ApplyTrimming(text, Some(k), c);
    if s.Ok? {
      var t := TrimLineEnd(s.value);
      assert RenderMember(h, c, m, level, visited) == Done(prefix + t + NewLine, visited);
      LineEnd(prefix, t);
    }
  }

  /** A line made of a prefix ending in a space and a text without a trailing line break ends in
      exactly one line break. */
  lemma LineEnd(prefix: string, t: string)
    requires |prefix| > 0 && prefix[|prefix| - 1] == ' '
    requires t == [] || !IsLineBreak(t[|t| - 1])
    ensures var x := prefix + t + NewLine;
            |x| >= 2 && x[|x| - 1] == '\n' && !IsLineBreak(x[|x| - 2])
  {
    var x := prefix + t + NewLine;
    if t == [] {
      assert x[|x| - 2] == prefix[|prefix| - 1];
    } else {
      assert x[|x| - 2] == t[|t| - 1];
    }
  }

  /** A member whose read fails (the getter throws) or returns null is shown as null: its formatter
      receives the text "null", and without a formatter it prints the line "null". */
  lemma NullOrFailedReadPrintsNull(h: Heap, c: Settings, m: Member, level: nat, visited: set<Ref>)
    requires Closed(h) && ReadIn(h, m.read) && level < c.maxNestingLevel
    requires m.read.Throws? || m.read == Returns(Null)
    requires m.key !in c.excludedMember && m.key.declaredType !in c.excludedTypes
    ensures var prefix := Tabs(level + 1) + m.key.name + " = ";
            RenderMember(h, c, m, level, visited) ==
              if m.key in c.customMemberSerializers then
                match ApplyTrimming("null", Some(m.key), c)
                case Thrown(_) => Aborted
                case Ok(s) => Done(prefix + TrimLineEnd(s) + NewLine, visited)
              else Done(prefix + "null" + NewLine, visited)
  {
    var prefix := Tabs(level + 1) + m.key.name + " = ";
    assert prefix + ("null" + NewLine) == prefix + "null" + NewLine;
  }

  /** Without a member formatter, a member prints its indented name and " = ", then its value
      one level deeper with the member itself as parent, so the member's trim length applies. */
  lemma MemberWithoutFormatterRecurses(h: Heap, c: Settings, m: Member, level: nat, visited: set<Ref>)
    requires Closed(h) && ReadIn(h, m.read) && level < c.maxNestingLevel
    requires m.key !in c.excludedMember && m.key.declaredType !in c.excludedTypes
    requires m.key !in c.customMemberSerializers
    ensures RenderMember(h, c, m, level, visited)
            == Then(Tabs(level + 1) + m.key.name + " = ", Render(h, c, SafeGet(m.read), level + 1, Some(m.key), visited))
  {
  }

  /** An object that no earlier case claims, and that is neither a dictionary nor a sequence, is
      walked member by member after being marked. */
  lemma CompositeIsWalked(h: Heap, c: Settings, r: Ref, level: nat, parent: Option<MemberKey>, visited: set<Ref>)
    requires Closed(h) && r in h && h[r].shape.Composite?
    requires !Guarded(h, c, Obj(r), level) && !Revisit(h[r].runtimeType, r, visited)
    requires h[r].runtimeType !in c.customTypeSerializers && !IsTerminal(h[r].runtimeType)
    ensures Render(h, c, Obj(r), level, parent, visited)
            == RenderComposite(h, c, r, level, Mark(h[r].runtimeType, r, visited))
  {
  }

  /** A formatter registered for the object's runtime type gives its text, trimmed for the parent
      member; it wins over the terminal, dictionary, sequence and composite cases, and the object
      counts as entered. */
  lemma CustomTypeFormatterRendersText(h: Heap, c: Settings, r: Ref, level: nat, parent: Option<MemberKey>,
                                       visited: set<Ref>)
    requires Closed(h) && r in h && h[r].runtimeType in c.customTypeSerializers
    requires !Guarded(h, c, Obj(r), level) && !Revisit(h[r].runtimeType, r, visited)
    ensures Render(h, c, Obj(r), level, parent, visited)
            == Emit(ApplyTrimming(c.customTypeSerializers[h[r].runtimeType](h, r), parent, c),
                    Mark(h[r].runtimeType, r, visited))
  {
  }

  /** An object that no earlier case claims and that exposes IDictionary is walked entry by entry
      after being marked, even when it also exposes IEnumerable. */
  lemma DictionaryIsWalked(h: Heap, c: Settings, r: Ref, level: nat, parent: Option<MemberKey>, visited: set<Ref>)
    requires Closed(h) && r in h && h[r].shape.Dictionary?
    requires !Guarded(h, c, Obj(r), level) && !Revisit(h[r].runtimeType, r, visited)
    requires h[r].runtimeType !in c.customTypeSerializers && !IsTerminal(h[r].runtimeType)
    ensures Render(h, c, Obj(r), level, parent, visited)
            == RenderDictionary(h, c, r, level, Mark(h[r].runtimeType, r, visited))
  {
  }

  /** A readable property that prints as `line` from any visited set containing `visited` shows
      that line somewhere in the output of the property loop, whatever the properties before and
      after it print. */
  lemma {:induction false} PropertiesShowMember(h: Heap, c: Settings, ps: seq<Member>, level: nat,
                                                visited: set<Ref>, m: Member, line: string)
    requires Closed(h) && MembersIn(h, ps) && level < c.maxNestingLevel
    requires m in ps && m.canRead
    requires forall v: set<Ref> | visited <= v :: RenderMember(h, c, m, level, v) == Done(line, v)
    ensures var o := RenderProperties(h, c, ps, level, visited);
            o.Done? ==> Contains(o.text, line)
    decreases |ps|
  {
    if ps[0] == m {
      var rest := RenderProperties(h, c, ps[1..], level, visited);
      if rest.Done? {
        ContainsStart(line, rest.text);
      }
    } else {
      assert m in ps[1..];
      if !ps[0].canRead {
        PropertiesShowMember(h, c, ps[1..], level, visited, m, line);
      } else {
        var x := RenderMember(h, c, ps[0], level, visited);
        if x.Done? {
          MemberSound(h, c, ps[0], level, visited);
          PropertiesShowMember(h, c, ps[1..], level, x.visited, m, line);
          var rest := RenderProperties(h, c, ps[1..], level, x.visited);
          if rest.Done? {
            ContainsAfter(x.text, rest.text, line);
          }
        }
      }
    }
  }

  /** An object that no earlier case claims and that exposes IEnumerable, String excepted, is
      walked element by element after being marked. */
  lemma SequenceIsWalked(h: Heap, c: Settings, r: Ref, level: nat, parent: Option<MemberKey>, visited: set<Ref>)
    requires Closed(h) && r in h && h[r].shape.Sequence? && h[r].runtimeType != StringType
    requires !Guarded(h, c, Obj(r), level) && !Revisit(h[r].runtimeType, r, visited)
    requires h[r].runtimeType !in c.customTypeSerializers && !IsTerminal(h[r].runtimeType)
    ensures Render(h, c, Obj(r), level, parent, visited)
            == RenderSequence(h, c, r, level, Mark(h[r].runtimeType, r, visited))
  {
  }
}
