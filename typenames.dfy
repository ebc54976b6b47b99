/** FormatTypeName: the display name of a runtime type, with generic arguments spelled out. */
module TypeNames {
  import opened Runtime
  import opened Strings

  /** The generic definition's name up to its arity backtick ("Dictionary`2" gives "Dictionary"). */
  function Stem(t: TypeDesc): string
    requires '`' in t.name
  {
    t.name[..IndexOf(t.name, '`')]
  }

  /** The stem is everything before the first backtick. */
  lemma StemOf(t: TypeDesc, stem: string, arity: string)
    requires t.name == stem + ['`'] + arity && '`' !in stem
    ensures '`' in t.name && Stem(t) == stem
  {
    IndexOfFirst(stem, '`', arity);
    assert t.name[|stem|] == '`';
    assert t.name[..|stem|] == stem;
  }

  /** A non-generic type prints as its Name; a generic one as its stem, then `<`, the recursively
      formatted arguments joined by ", ", and `>`. Slicing up to a missing backtick, as for a
      generic type whose Name has none, throws ArgumentOutOfRangeException. */
  function FormatTypeName(t: TypeDesc): (r: Result<string>)
    ensures !t.isGeneric ==> r == Ok(t.name)
    ensures t.isGeneric && '`' !in t.name ==> r == Thrown(ArgumentOutOfRangeException)
    ensures r.Thrown? ==> r.error == ArgumentOutOfRangeException
    ensures t.isGeneric && r.Ok? ==>
              '`' in t.name && Stem(t) + "<" <= r.value && EndsWith(r.value, ">")
    decreases t, 1, 0
  {
    if !t.isGeneric then Ok(t.name)
    else
      var backtick := IndexOf(t.name, '`');
      if backtick < 0 then Thrown(ArgumentOutOfRangeException)
      else
        match FormatTypeArgs(t, 0)
        case Thrown(e) => Thrown(e)
        case Ok(names) =>
          var s := t.name[..backtick] + "<" + Join(", ", names) + ">";
          Ok(s)
  }

  /** The formatted names of t's generic arguments from index i on, or the first exception. */
  function FormatTypeArgs(t: TypeDesc, i: nat): (r: Result<seq<string>>)
    requires i <= |t.args|
    ensures r.Ok? ==> |r.value| == |t.args| - i
    ensures r.Thrown? ==> r.error == ArgumentOutOfRangeException
    decreases t, 0, |t.args| - i
  {
    if i == |t.args| then Ok([])
    else
      match FormatTypeName(t.args[i])
      case Thrown(e) => Thrown(e)
      case Ok(name) =>
        match FormatTypeArgs(t, i + 1)
        case Thrown(e) => Thrown(e)
        case Ok(rest) => Ok([name] + rest)
  }

  /** Every generic type in the tree of t has an arity backtick in its Name. */
  predicate WellNamed(t: TypeDesc)
    decreases t
  {
    t.isGeneric ==> '`' in t.name && forall i | 0 <= i < |t.args| :: WellNamed(t.args[i])
  }

  /** FormatTypeName succeeds exactly on well-named types. */
  lemma {:induction false} FormatTypeNameSucceedsIff(t: TypeDesc)
    ensures FormatTypeName(t).Ok? <==> WellNamed(t)
    decreases t, 1, 0
  {
    if t.isGeneric && '`' in t.name {
      FormatTypeArgsSucceedIff(t, 0);
    }
  }

  lemma {:induction false} FormatTypeArgsSucceedIff(t: TypeDesc, i: nat)
    requires i <= |t.args|
    ensures FormatTypeArgs(t, i).Ok? <==> forall j | i <= j < |t.args| :: WellNamed(t.args[j])
    decreases t, 0, |t.args| - i
  {
    if i < |t.args| {
      FormatTypeNameSucceedsIff(t.args[i]);
      FormatTypeArgsSucceedIff(t, i + 1);
    }
  }

  /** The name of a generic type is assembled from the names of its arguments. */
  lemma FormatTypeNameOfGeneric(t: TypeDesc, names: seq<string>)
    requires t.isGeneric && '`' in t.name
    requires |names| == |t.args|
    requires forall i | 0 <= i < |t.args| :: FormatTypeName(t.args[i]) == Ok(names[i])
    ensures FormatTypeName(t) == Ok(Stem(t) + "<" + Join(", ", names) + ">")
  {
    FormatTypeArgsOf(t, names, 0);
  }

  lemma {:induction false} FormatTypeArgsOf(t: TypeDesc, names: seq<string>, i: nat)
    requires i <= |t.args| && |names| == |t.args|
    requires forall j | i <= j < |t.args| :: FormatTypeName(t.args[j]) == Ok(names[j])
    ensures FormatTypeArgs(t, i) == Ok(names[i..])
    decreases |t.args| - i
  {
    if i < |t.args| {
      FormatTypeArgsOf(t, names, i + 1);
      assert names[i..] == [names[i]] + names[i + 1..];
    }
  }
}
