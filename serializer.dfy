/** The serializer proper: methods that append to the context's builder and grow its visited
    set, each proved to have exactly the effect the matching Rendering function describes. */
module Serializer {
  import opened Runtime
  import opened Strings
  import opened Configuration
  import opened Context
  import opened TypeNames
  import opened Formatting
  import opened Rendering

  lemma Assoc(a: string, b: string, c: string)
    ensures (a + b) + c == a + (b + c)
  {
  }

  /** The header line followed by the loop's text, as one append. */
  lemma Closing(start: string, name: string, acc: string)
    ensures start + name + NewLine + acc == start + (name + NewLine + (acc + ""))
  {
    assert acc + "" == acc;
    Assoc(start, name, NewLine);
    Assoc(start, name + NewLine, acc);
  }

  lemma ThenThen(a: string, b: string, o: Outcome)
    ensures Then(a, Then(b, o)) == Then(a + b, o)
  {
    if o.Done? {
      assert a + (b + o.text) == (a + b) + o.text;
    }
  }

  /** SerializeObject: a fresh builder and a fresh context with nothing visited, then one
      Serialize at level 0 with no parent member; the result is the builder's text. */
  method SerializeObject(h: Heap, obj: Value, config: PrintingConfig) returns (res: Result<string>)
    requires Closed(h) && ValueIn(h, obj)
    ensures match Render(h, config.Snapshot(), obj, 0, None, {})
            case Done(s, _) => res == Ok(s)
            case Aborted => res == Thrown(ArgumentOutOfRangeException)
  {
    var sb := new StringBuilder();
    var ctx := new SerializationContext(config, sb);
    ghost var out := Render(h, config.Snapshot(), obj, 0, None, {});
    var ok := Serialize(h, obj, 0, None, ctx);
    if ok {
      assert "" + out.text == out.text;
      res := Ok(sb.text);
    } else {
      res := Thrown(ArgumentOutOfRangeException);
    }
  }

  /** PrintingConfig.PrintToString(obj): serializes obj with this configuration. */
  method PrintToString(config: PrintingConfig, h: Heap, obj: Value) returns (res: Result<string>)
    requires Closed(h) && ValueIn(h, obj)
    ensures match Render(h, config.Snapshot(), obj, 0, None, {})
            case Done(s, _) => res == Ok(s)
            case Aborted => res == Thrown(ArgumentOutOfRangeException)
  {
    res := SerializeObject(h, obj, config);
  }

  method Serialize(h: Heap, v: Value, level: nat, parent: Option<MemberKey>, ctx: SerializationContext)
    returns (ok: bool)
    requires Closed(h) && ValueIn(h, v)
    modifies ctx, ctx.Builder
    ensures Emitted(Render(h, ctx.Config.Snapshot(), v, level, parent, old(ctx.Visited)),
                    ok, old(ctx.Builder.text), ctx.Builder.text, ctx.Visited)
    decreases ctx.Config.MaxNestingLevel - level, 3
  {
    var handled;
    handled, ok := TryHandleNullOrExcludedOrDepth(h, v, level, ctx);
    if handled {
      return;
    }
    var r := v.r;
    handled, ok := TryHandleCycle(h, r, ctx);
    if handled {
      return;
    }
    handled, ok := TryHandleCustomTypeSerializer(h, r, parent, ctx);
    if handled {
      return;
    }
    handled, ok := TryHandleTerminal(h, r, parent, ctx);
    if handled {
      return;
    }
    handled, ok := TryHandleDictionary(h, r, level, ctx);
    if handled {
      return;
    }
    handled, ok := TryHandleEnumerable(h, r, level, ctx);
    if handled {
      return;
    }
    ok := SerializeComplexObject(h, r, level, ctx);
  }

  method TryHandleNullOrExcludedOrDepth(h: Heap, v: Value, level: nat, ctx: SerializationContext)
    returns (handled: bool, ok: bool)
    requires ValueIn(h, v)
    modifies ctx.Builder
    ensures handled == Guarded(h, ctx.Config.Snapshot(), v, level)
    ensures handled ==> Wrote(GuardText(h, ctx.Config.Snapshot(), v, level), ok, old(ctx.Builder.text), ctx.Builder.text)
    ensures !handled ==> ok && ctx.Builder.text == old(ctx.Builder.text)
  {
    if v.Null? {
      ctx.Builder.AppendLine("null");
      return true, true;
    }
    var t := h[v.r].runtimeType;
    if t in ctx.Config.ExcludedTypes {
      ctx.Builder.AppendLine("[Excluded Type]");
      return true, true;
    }
    if level >= ctx.Config.MaxNestingLevel {
      var name := FormatTypeName(t);
      if name.Thrown? {
        return true, false;
      }
      ctx.Builder.AppendLine("[" + name.value + DepthText + "]");
      return true, true;
    }
    return false, true;
  }

  method TryHandleCycle(h: Heap, r: Ref, ctx: SerializationContext) returns (handled: bool, ok: bool)
    requires r in h
    modifies ctx, ctx.Builder
    ensures handled == Revisit(h[r].runtimeType, r, old(ctx.Visited))
    ensures handled ==> Wrote(CycleMarker(h[r].runtimeType), ok, old(ctx.Builder.text), ctx.Builder.text)
    ensures handled ==> ctx.Visited == old(ctx.Visited)
    ensures !handled ==> ok && ctx.Builder.text == old(ctx.Builder.text)
    ensures !handled ==> ctx.Visited == Mark(h[r].runtimeType, r, old(ctx.Visited))
  {
    var t := h[r].runtimeType;
    if t.isValueType {
      return false, true;
    }
    var added := r !in ctx.Visited;
    ctx.Visited := ctx.Visited + {r};
    if added {
      return false, true;
    }
    var name := FormatTypeName(t);
    if name.Thrown? {
      return true, false;
    }
    ctx.Builder.AppendLine("[CyclicRef " + name.value + "]");
    return true, true;
  }

  method TryHandleCustomTypeSerializer(h: Heap, r: Ref, parent: Option<MemberKey>, ctx: SerializationContext)
    returns (handled: bool, ok: bool)
    requires r in h
    modifies ctx.Builder
    ensures handled == (h[r].runtimeType in ctx.Config.CustomTypeSerializers)
    ensures handled ==>
              Wrote(ApplyTrimming(ctx.Config.CustomTypeSerializers[h[r].runtimeType](h, r), parent, ctx.Config.Snapshot()),
                    ok, old(ctx.Builder.text), ctx.Builder.text)
    ensures !handled ==> ok && ctx.Builder.text == old(ctx.Builder.text)
  {
    var t := h[r].runtimeType;
    if t !in ctx.Config.CustomTypeSerializers {
      return false, true;
    }
    var text := ctx.Config.CustomTypeSerializers[t](h, r);
    var s := ApplyTrimming(text, parent, ctx.Config.Snapshot());
    if s.Thrown? {
      return true, false;
    }
    ctx.Builder.Append(s.value);
    return true, true;
  }

  method TryHandleTerminal(h: Heap, r: Ref, parent: Option<MemberKey>, ctx: SerializationContext)
    returns (handled: bool, ok: bool)
    requires r in h
    modifies ctx.Builder
    ensures handled == IsTerminal(h[r].runtimeType)
    ensures handled ==> Wrote(FormatScalar(h, r, parent, ctx.Config.Snapshot()), ok, old(ctx.Builder.text), ctx.Builder.text)
    ensures !handled ==> ok && ctx.Builder.text == old(ctx.Builder.text)
  {
    if !IsTerminal(h[r].runtimeType) {
      return false, true;
    }
    var s := FormatScalar(h, r, parent, ctx.Config.Snapshot());
    if s.Thrown? {
      return true, false;
    }
    ctx.Builder.Append(s.value);
    return true, true;
  }

  method TryHandleDictionary(h: Heap, r: Ref, level: nat, ctx: SerializationContext)
    returns (handled: bool, ok: bool)
    requires Closed(h) && r in h && level < ctx.Config.MaxNestingLevel
    modifies ctx, ctx.Builder
    ensures handled == h[r].shape.Dictionary?
    ensures handled ==> Emitted(RenderDictionary(h, ctx.Config.Snapshot(), r, level, old(ctx.Visited)),
                                ok, old(ctx.Builder.text), ctx.Builder.text, ctx.Visited)
    ensures !handled ==> ok && ctx.Builder.text == old(ctx.Builder.text) && ctx.Visited == old(ctx.Visited)
    decreases ctx.Config.MaxNestingLevel - level, 2
  {
    if !h[r].shape.Dictionary? {
      return false, true;
    }
    handled := true;
    assert NodeIn(h, h[r]);
    var entries := h[r].shape.entries;
    var name := FormatTypeName(h[r].runtimeType);
    if name.Thrown? {
      return true, false;
    }
    ghost var start := ctx.Builder.text;
    ctx.Builder.AppendLine(name.value);
    ghost var c := ctx.Config.Snapshot();
    ghost var v0 := ctx.Visited;
    ghost var base := ctx.Builder.text;
    ghost var acc := "";
    var i := 0;
    while i < |entries|
      invariant 0 <= i <= |entries|
      invariant ctx.Builder.text == base + acc
      invariant RenderEntries(h, c, entries, level, v0) == Then(acc, RenderEntries(h, c, entries[i..], level, ctx.Visited))
      decreases |entries| - i
    {
      assert entries[i..][0] == entries[i] && entries[i..][1..] == entries[i + 1..];
      ghost var out := RenderEntry(h, c, entries[i], level, ctx.Visited);
      ok := SerializeEntry(h, entries[i], level, ctx);
      if !ok {
        return;
      }
      ThenThen(acc, out.text, RenderEntries(h, c, entries[i + 1..], level, ctx.Visited));
      Assoc(base, acc, out.text);
      acc := acc + out.text;
      i := i + 1;
    }
    assert entries[i..] == [];
    Closing(start, name.value, acc);
    ok := true;
  }

  /** The body of TryHandleDictionary's loop, for one entry. */
  method SerializeEntry(h: Heap, e: Entry, level: nat, ctx: SerializationContext) returns (ok: bool)
    requires Closed(h) && ValueIn(h, e.key) && ValueIn(h, e.value) && level < ctx.Config.MaxNestingLevel
    modifies ctx, ctx.Builder
    ensures Emitted(RenderEntry(h, ctx.Config.Snapshot(), e, level, old(ctx.Visited)),
                    ok, old(ctx.Builder.text), ctx.Builder.text, ctx.Visited)
    decreases ctx.Config.MaxNestingLevel - level, 1
  {
    ghost var before := ctx.Builder.text;
    ghost var keyOut := Labelled(h, ctx.Config.Snapshot(), e.key, "Key = ", level, ctx.Visited);
    ok := SerializeLabelled(h, e.key, "Key = ", level, ctx);
    if ok {
      ghost var valueOut := Labelled(h, ctx.Config.Snapshot(), e.value, "Value = ", level, ctx.Visited);
      ok := SerializeLabelled(h, e.value, "Value = ", level, ctx);
      if ok {
        Assoc(before, keyOut.text, valueOut.text);
      }
    }
  }

  /** Indent(level + 1), Append(tag), Serialize(v, level + 1, null): the statements the
      dictionary and sequence loops repeat. */
  method SerializeLabelled(h: Heap, v: Value, tag: string, level: nat, ctx: SerializationContext) returns (ok: bool)
    requires Closed(h) && ValueIn(h, v) && level < ctx.Config.MaxNestingLevel
    modifies ctx, ctx.Builder
    ensures Emitted(Labelled(h, ctx.Config.Snapshot(), v, tag, level, old(ctx.Visited)),
                    ok, old(ctx.Builder.text), ctx.Builder.text, ctx.Visited)
    decreases ctx.Config.MaxNestingLevel - level, 0
  {
    ghost var before := ctx.Builder.text;
    ghost var out := Render(h, ctx.Config.Snapshot(), v, level + 1, None, ctx.Visited);
    ctx.Indent(level + 1);
    ctx.Builder.Append(tag);
    Assoc(before, Tabs(level + 1), tag);
    ok := Serialize(h, v, level + 1, None, ctx);
    if ok {
      Assoc(before, Tabs(level + 1) + tag, out.text);
    }
  }

  method TryHandleEnumerable(h: Heap, r: Ref, level: nat, ctx: SerializationContext)
    returns (handled: bool, ok: bool)
    requires Closed(h) && r in h && level < ctx.Config.MaxNestingLevel
    modifies ctx, ctx.Builder
    ensures handled == (h[r].shape.Sequence? && h[r].runtimeType != StringType)
    ensures handled ==> Emitted(RenderSequence(h, ctx.Config.Snapshot(), r, level, old(ctx.Visited)),
                                ok, old(ctx.Builder.text), ctx.Builder.text, ctx.Visited)
    ensures !handled ==> ok && ctx.Builder.text == old(ctx.Builder.text) && ctx.Visited == old(ctx.Visited)
    decreases ctx.Config.MaxNestingLevel - level, 2
  {
    if !h[r].shape.Sequence? || h[r].runtimeType == StringType {
      return false, true;
    }
    handled := true;
    assert NodeIn(h, h[r]);
    var items := h[r].shape.items;
    var name := FormatTypeName(h[r].runtimeType);
    if name.Thrown? {
      return true, false;
    }
    ghost var start := ctx.Builder.text;
    ctx.Builder.AppendLine(name.value);
    ghost var c := ctx.Config.Snapshot();
    ghost var v0 := ctx.Visited;
    ghost var base := ctx.Builder.text;
    ghost var acc := "";
    var i := 0;
    while i < |items|
      invariant 0 <= i <= |items|
      invariant ctx.Builder.text == base + acc
      invariant RenderItems(h, c, items, 0, level, v0) == Then(acc, RenderItems(h, c, items[i..], i, level, ctx.Visited))
      decreases |items| - i
    {
      assert items[i..][0] == items[i] && items[i..][1..] == items[i + 1..];
      ghost var out := Labelled(h, c, items[i], ItemLabel(i), level, ctx.Visited);
      ok := SerializeLabelled(h, items[i], "[" + NatToString(i) + "] = ", level, ctx);
      if !ok {
        return;
      }
      ThenThen(acc, out.text, RenderItems(h, c, items[i + 1..], i + 1, level, ctx.Visited));
      Assoc(base, acc, out.text);
      acc := acc + out.text;
      i := i + 1;
    }
    assert items[i..] == [];
    Closing(start, name.value, acc);
    ok := true;
  }

  /** SerializeComplexObject: the type's name on a line of its own, then the properties, then the
      fields. */
  method SerializeComplexObject(h: Heap, r: Ref, level: nat, ctx: SerializationContext) returns (ok: bool)
    requires Closed(h) && r in h && h[r].shape.Composite? && level < ctx.Config.MaxNestingLevel
    modifies ctx, ctx.Builder
    ensures Emitted(RenderComposite(h, ctx.Config.Snapshot(), r, level, old(ctx.Visited)),
                    ok, old(ctx.Builder.text), ctx.Builder.text, ctx.Visited)
    decreases ctx.Config.MaxNestingLevel - level, 2
  {
    assert NodeIn(h, h[r]);
    var name := FormatTypeName(h[r].runtimeType);
    if name.Thrown? {
      return false;
    }
    ghost var start := ctx.Builder.text;
    ghost var c := ctx.Config.Snapshot();
    ctx.Builder.AppendLine(name.value);
    ghost var v0 := ctx.Visited;
    ghost var props := RenderProperties(h, c, h[r].shape.properties, level, v0);
    ok := SerializeProperties(h, h[r].shape.properties, level, ctx);
    if !ok {
      return;
    }
    ghost var fields := RenderFields(h, c, h[r].shape.fields, level, ctx.Visited);
    ok := SerializeFields(h, h[r].shape.fields, level, ctx);
    if !ok {
      return;
    }
    Assoc(start, name.value, NewLine);
    Assoc(start, name.value + NewLine, props.text);
    Assoc(start, name.value + NewLine + props.text, fields.text);
  }

  /** The property loop: each readable property in the order reflection enumerates, skipping
      the others. */
  method SerializeProperties(h: Heap, ps: seq<Member>, level: nat, ctx: SerializationContext) returns (ok: bool)
    requires Closed(h) && MembersIn(h, ps) && level < ctx.Config.MaxNestingLevel
    modifies ctx, ctx.Builder
    ensures Emitted(RenderProperties(h, ctx.Config.Snapshot(), ps, level, old(ctx.Visited)),
                    ok, old(ctx.Builder.text), ctx.Builder.text, ctx.Visited)
    decreases ctx.Config.MaxNestingLevel - level, 1
  {
    ghost var c := ctx.Config.Snapshot();
    ghost var v0 := ctx.Visited;
    ghost var base := ctx.Builder.text;
    ghost var acc := "";
    var i := 0;
    while i < |ps|
      invariant 0 <= i <= |ps|
      invariant ctx.Builder.text == base + acc
      invariant RenderProperties(h, c, ps, level, v0) == Then(acc, RenderProperties(h, c, ps[i..], level, ctx.Visited))
      decreases |ps| - i
    {
      assert ps[i..][0] == ps[i] && ps[i..][1..] == ps[i + 1..];
      if !ps[i].canRead {
        i := i + 1;
        continue;
      }
      ghost var out := RenderMember(h, c, ps[i], level, ctx.Visited);
      ok := SerializeMember(h, ps[i], level, ctx);
      if !ok {
        return;
      }
      ThenThen(acc, out.text, RenderProperties(h, c, ps[i + 1..], level, ctx.Visited));
      Assoc(base, acc, out.text);
      acc := acc + out.text;
      i := i + 1;
    }
    assert ps[i..] == [];
    assert acc + "" == acc;
    ok := true;
  }

  /** The field loop: every field in the order reflection enumerates. */
  method SerializeFields(h: Heap, fs: seq<Member>, level: nat, ctx: SerializationContext) returns (ok: bool)
    requires Closed(h) && MembersIn(h, fs) && level < ctx.Config.MaxNestingLevel
    modifies ctx, ctx.Builder
    ensures Emitted(RenderFields(h, ctx.Config.Snapshot(), fs, level, old(ctx.Visited)),
                    ok, old(ctx.Builder.text), ctx.Builder.text, ctx.Visited)
    decreases ctx.Config.MaxNestingLevel - level, 1
  {
    ghost var c := ctx.Config.Snapshot();
    ghost var v0 := ctx.Visited;
    ghost var base := ctx.Builder.text;
    ghost var acc := "";
    var j := 0;
    while j < |fs|
      invariant 0 <= j <= |fs|
      invariant ctx.Builder.text == base + acc
      invariant RenderFields(h, c, fs, level, v0) == Then(acc, RenderFields(h, c, fs[j..], level, ctx.Visited))
      decreases |fs| - j
    {
      assert fs[j..][0] == fs[j] && fs[j..][1..] == fs[j + 1..];
      ghost var out := RenderMember(h, c, fs[j], level, ctx.Visited);
      ok := SerializeMember(h, fs[j], level, ctx);
      if !ok {
        return;
      }
      ThenThen(acc, out.text, RenderFields(h, c, fs[j + 1..], level, ctx.Visited));
      Assoc(base, acc, out.text);
      acc := acc + out.text;
      j := j + 1;
    }
    assert fs[j..] == [];
    assert acc + "" == acc;
    ok := true;
  }

  method SerializeMember(h: Heap, m: Member, level: nat, ctx: SerializationContext) returns (ok: bool)
    requires Closed(h) && ReadIn(h, m.read) && level < ctx.Config.MaxNestingLevel
    modifies ctx, ctx.Builder
    ensures Emitted(RenderMember(h, ctx.Config.Snapshot(), m, level, old(ctx.Visited)),
                    ok, old(ctx.Builder.text), ctx.Builder.text, ctx.Visited)
    decreases ctx.Config.MaxNestingLevel - level, 0
  {
    ghost var c := ctx.Config.Snapshot();
    ghost var visited := ctx.Visited;
    ghost var before := ctx.Builder.text;
    var member := m.key;
    if member in ctx.Config.ExcludedMember || member.declaredType in ctx.Config.ExcludedTypes {
      assert RenderMember(h, c, m, level, visited) == Done("", visited);
      assert before + "" == before;
      return true;
    }
    ghost var pad := Tabs(level + 1);
    ghost var prefix := pad + member.name + " = ";
    ctx.Indent(level + 1);
    ctx.Builder.Append(member.name);
    Assoc(before, pad, member.name);
    ctx.Builder.Append(" = ");
    Assoc(before, pad + member.name, " = ");
    assert ctx.Builder.text == before + prefix;
    var value := SafeGet(m.read);
    if member in ctx.Config.CustomMemberSerializers {
      var text := if value.Null? then "null" else ctx.Config.CustomMemberSerializers[member](h, value.r);
      var s := ApplyTrimming(text, Some(member), ctx.Config.Snapshot());
      if s.Thrown? {
        assert RenderMember(h, c, m, level, visited) == Aborted;
        return false;
      }
      assert RenderMember(h, c, m, level, visited) == Done(prefix + TrimLineEnd(s.value) + NewLine, visited);
      ctx.Builder.AppendLine(TrimLineEnd(s.value));
      Assoc(before, prefix, TrimLineEnd(s.value));
      Assoc(before, prefix + TrimLineEnd(s.value), NewLine);
      return true;
    }
    ghost var out := Render(h, c, value, level + 1, Some(member), visited);
    assert RenderMember(h, c, m, level, visited) == Then(prefix, out);
    ok := Serialize(h, value, level + 1, Some(member), ctx);
    if ok {
      Assoc(before, prefix, out.text);
    }
  }
}
