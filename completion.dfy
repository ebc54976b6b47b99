/** When a call can throw: the only exceptions the walk raises come from the two slices, the
    type-name slice of FormatTypeName and the trim slice of ApplyTrimming. So on a graph whose
    every type can be named and under a configuration with no negative trim length, printing
    always completes, cycles and all. */
module Completion {
  import opened Runtime
  import opened Configuration
  import opened TypeNames
  import opened Formatting
  import opened Rendering

  /** Every object of the graph has a runtime type FormatTypeName can name. */
  ghost predicate Nameable(h: Heap) {
    forall r | r in h :: FormatTypeName(h[r].runtimeType).Ok?
  }

  /** No trim length stored for a member or a type is negative. */
  predicate NoNegativeTrims(c: Settings) {
    (forall m | m in c.trimmedMembers :: c.trimmedMembers[m] >= 0) &&
    (forall t | t in c.trimmedTypes :: c.trimmedTypes[t] >= 0)
  }

  /** Without negative lengths, trimming never throws. */
  lemma TrimmingSucceeds(s: string, parent: Option<MemberKey>, c: Settings)
    requires NoNegativeTrims(c)
    ensures ApplyTrimming(s, parent, c).Ok?
  {
    if parent.Some? && parent.value !in c.trimmedMembers && parent.value.declaredType in c.trimmedTypes {
      assert c.trimmedTypes[parent.value.declaredType] >= 0;
    }
  }

  lemma {:induction false} RenderCompletes(h: Heap, c: Settings, v: Value, level: nat, parent: Option<MemberKey>,
                                           visited: set<Ref>)
    requires Closed(h) && ValueIn(h, v) && Nameable(h) && NoNegativeTrims(c)
    ensures Render(h, c, v, level, parent, visited).Done?
    decreases c.maxNestingLevel - level, 3, 0
  {
    if v.Obj? {
      var r := v.r;
      var t := h[r].runtimeType;
      assert FormatTypeName(t).Ok?;
      if !Guarded(h, c, v, level) && !Revisit(t, r, visited) {
        var vis := Mark(t, r, visited);
        if t in c.customTypeSerializers {
          TrimmingSucceeds(c.customTypeSerializers[t](h, r), parent, c);
        } else if IsTerminal(t) {
          TrimmingSucceeds(ScalarText(h, r, c), parent, c);
        } else if h[r].shape.Dictionary? {
          DictionaryCompletes(h, c, r, level, vis);
        } else if h[r].shape.Sequence? && t != StringType {
          SequenceCompletes(h, c, r, level, vis);
        } else {
          CompositeCompletes(h, c, r, level, vis);
        }
      }
    }
  }

  lemma {:induction false} DictionaryCompletes(h: Heap, c: Settings, r: Ref, level: nat, visited: set<Ref>)
    requires Closed(h) && r in h && h[r].shape.Dictionary? && level < c.maxNestingLevel
    requires Nameable(h) && NoNegativeTrims(c)
    ensures RenderDictionary(h, c, r, level, visited).Done?
    decreases c.maxNestingLevel - level, 2, 0
  {
    assert NodeIn(h, h[r]);
    assert FormatTypeName(h[r].runtimeType).Ok?;
    EntriesComplete(h, c, h[r].shape.entries, level, visited);
  }

  lemma {:induction false} EntriesComplete(h: Heap, c: Settings, es: seq<Entry>, level: nat, visited: set<Ref>)
    requires Closed(h) && EntriesIn(h, es) && level < c.maxNestingLevel
    requires Nameable(h) && NoNegativeTrims(c)
    ensures RenderEntries(h, c, es, level, visited).Done?
    decreases c.maxNestingLevel - level, 1, |es|
  {
    if es != [] {
      EntryCompletes(h, c, es[0], level, visited);
      EntriesComplete(h, c, es[1..], level, RenderEntry(h, c, es[0], level, visited).visited);
    }
  }

  lemma {:induction false} EntryCompletes(h: Heap, c: Settings, e: Entry, level: nat, visited: set<Ref>)
    requires Closed(h) && ValueIn(h, e.key) && ValueIn(h, e.value) && level < c.maxNestingLevel
    requires Nameable(h) && NoNegativeTrims(c)
    ensures RenderEntry(h, c, e, level, visited).Done?
    decreases c.maxNestingLevel - level, 1, 0
  {
    LabelledCompletes(h, c, e.key, "Key = ", level, visited);
    LabelledCompletes(h, c, e.value, "Value = ", level, Labelled(h, c, e.key, "Key = ", level, visited).visited);
  }

  lemma {:induction false} LabelledCompletes(h: Heap, c: Settings, v: Value, tag: string, level: nat,
                                             visited: set<Ref>)
    requires Closed(h) && ValueIn(h, v) && level < c.maxNestingLevel
    requires Nameable(h) && NoNegativeTrims(c)
    ensures Labelled(h, c, v, tag, level, visited).Done?
    decreases c.maxNestingLevel - level, 0, 0
  {
    RenderCompletes(h, c, v, level + 1, None, visited);
  }

  lemma {:induction false} SequenceCompletes(h: Heap, c: Settings, r: Ref, level: nat, visited: set<Ref>)
    requires Closed(h) && r in h && h[r].shape.Sequence? && level < c.maxNestingLevel
    requires Nameable(h) && NoNegativeTrims(c)
    ensures RenderSequence(h, c, r, level, visited).Done?
    decreases c.maxNestingLevel - level, 2, 0
  {
    assert NodeIn(h, h[r]);
    assert FormatTypeName(h[r].runtimeType).Ok?;
    ItemsComplete(h, c, h[r].shape.items, 0, level, visited);
  }

  lemma {:induction false} ItemsComplete(h: Heap, c: Settings, items: seq<Value>, i: nat, level: nat,
                                         visited: set<Ref>)
    requires Closed(h) && ValuesIn(h, items) && level < c.maxNestingLevel
    requires Nameable(h) && NoNegativeTrims(c)
    ensures RenderItems(h, c, items, i, level, visited).Done?
    decreases c.maxNestingLevel - level, 1, |items|
  {
    if items != [] {
      LabelledCompletes(h, c, items[0], ItemLabel(i), level, visited);
      ItemsComplete(h, c, items[1..], i + 1, level, Labelled(h, c, items[0], ItemLabel(i), level, visited).visited);
    }
  }

  lemma {:induction false} CompositeCompletes(h: Heap, c: Settings, r: Ref, level: nat, visited: set<Ref>)
    requires Closed(h) && r in h && h[r].shape.Composite? && level < c.maxNestingLevel
    requires Nameable(h) && NoNegativeTrims(c)
    ensures RenderComposite(h, c, r, level, visited).Done?
    decreases c.maxNestingLevel - level, 2, 0
  {
    assert NodeIn(h, h[r]);
    assert FormatTypeName(h[r].runtimeType).Ok?;
    var ps := h[r].shape.properties;
    PropertiesComplete(h, c, ps, level, visited);
    FieldsComplete(h, c, h[r].shape.fields, level, RenderProperties(h, c, ps, level, visited).visited);
  }

  lemma {:induction false} PropertiesComplete(h: Heap, c: Settings, ps: seq<Member>, level: nat, visited: set<Ref>)
    requires Closed(h) && MembersIn(h, ps) && level < c.maxNestingLevel
    requires Nameable(h) && NoNegativeTrims(c)
    ensures RenderProperties(h, c, ps, level, visited).Done?
    decreases c.maxNestingLevel - level, 1, |ps|
  {
    if ps != [] {
      if !ps[0].canRead {
        PropertiesComplete(h, c, ps[1..], level, visited);
      } else {
        MemberCompletes(h, c, ps[0], level, visited);
        PropertiesComplete(h, c, ps[1..], level, RenderMember(h, c, ps[0], level, visited).visited);
      }
    }
  }

  lemma {:induction false} FieldsComplete(h: Heap, c: Settings, fs: seq<Member>, level: nat, visited: set<Ref>)
    requires Closed(h) && MembersIn(h, fs) && level < c.maxNestingLevel
    requires Nameable(h) && NoNegativeTrims(c)
    ensures RenderFields(h, c, fs, level, visited).Done?
    decreases c.maxNestingLevel - level, 1, |fs|
  {
    if fs != [] {
      MemberCompletes(h, c, fs[0], level, visited);
      FieldsComplete(h, c, fs[1..], level, RenderMember(h, c, fs[0], level, visited).visited);
    }
  }

  lemma {:induction false} MemberCompletes(h: Heap, c: Settings, m: Member, level: nat, visited: set<Ref>)
    requires Closed(h) && ReadIn(h, m.read) && level < c.maxNestingLevel
    requires Nameable(h) && NoNegativeTrims(c)
    ensures RenderMember(h, c, m, level, visited).Done?
    decreases c.maxNestingLevel - level, 0, 0
  {
    var k := m.key;
    if k !in c.excludedMember && k.declaredType !in c.excludedTypes {
      var value := SafeGet(m.read);
      if k in c.customMemberSerializers {
        var text := if value.Null? then "null" else c.customMemberSerializers[k](h, value.r);
        TrimmingSucceeds(text, Some(k), c);
      } else {
        RenderCompletes(h, c, value, level + 1, Some(k), visited);
      }
    }
  }
}
