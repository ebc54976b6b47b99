/** The configuration registry (PrintingConfig) and its fluent handles (MemberPrintingConfig,
    StintingPrintConfig). Every registration writes one table entry by index assignment, so
    the last write for a key wins, and returns the owning registry. */
module Configuration {
  import opened Runtime

  /** The tables of a PrintingConfig, as the serializer reads them. */
  datatype Settings = Settings(
    excludedTypes: set<TypeDesc>,
    excludedMember: set<MemberKey>,
    trimmedMembers: map<MemberKey, int>,
    trimmedTypes: map<TypeDesc, int>,
    culturesForTypes: map<TypeDesc, Culture>,
    customTypeSerializers: map<TypeDesc, Formatter>,
    customMemberSerializers: map<MemberKey, Formatter>,
    maxNestingLevel: int)

  /** The tables of a fresh PrintingConfig: all empty, nesting limited to 5. */
  const Defaults: Settings := Settings({}, {}, map[], map[], map[], map[], map[], 5)

  /** The body of a member-selector lambda `p => body`. */
  datatype Expr = MemberAccess(member: MemberKey) | OtherExpression

  datatype Selector = Selector(body: Expr)

  /** Resolves a selector to the member it accesses; any other body is an ArgumentException. */
  function GetMember(selector: Selector): (r: Result<MemberKey>)
    ensures r.Ok? <==> selector.body.MemberAccess?
    ensures r.Ok? ==> r.value == selector.body.member
    ensures r.Thrown? ==> r.error == ArgumentException
  {
    match selector.body
    case MemberAccess(m) => Ok(m)
    case OtherExpression => Thrown(ArgumentException)
  }

  class PrintingConfig {
    var ExcludedTypes: set<TypeDesc>
    var ExcludedMember: set<MemberKey>
    var TrimmedMembers: map<MemberKey, int>
    var TrimmedTypes: map<TypeDesc, int>
    var CulturesForTypes: map<TypeDesc, Culture>
    var CustomTypeSerializers: map<TypeDesc, Formatter>
    var CustomMemberSerializers: map<MemberKey, Formatter>
    var MaxNestingLevel: int

    /** The tables as one value. */
    function Snapshot(): Settings
      reads this
    {
      Settings(ExcludedTypes, ExcludedMember, TrimmedMembers, TrimmedTypes, CulturesForTypes,
               CustomTypeSerializers, CustomMemberSerializers, MaxNestingLevel)
    }

    /** A fresh configuration: every table empty, nesting limited to 5. */
    constructor ()
      ensures Snapshot() == Defaults
    {
      ExcludedTypes, ExcludedMember := {}, {};
      TrimmedMembers, TrimmedTypes, CulturesForTypes := map[], map[], map[];
      CustomTypeSerializers, CustomMemberSerializers := map[], map[];
      MaxNestingLevel := 5;
    }

    /** The settable MaxNestingLevel property; the setter accepts any value. */
    method SetMaxNestingLevel(level: int)
      modifies this
      ensures Snapshot() == old(Snapshot()).(maxNestingLevel := level)
    {
      MaxNestingLevel := level;
    }

    /** Excluding<T>(): adds exactly T to the excluded types. Being a set, a repeat changes nothing. */
    method ExcludingType(t: TypeDesc) returns (r: PrintingConfig)
      modifies this
      ensures r == this
      ensures Snapshot() == old(Snapshot()).(excludedTypes := old(ExcludedTypes) + {t})
    {
      ExcludedTypes := ExcludedTypes + {t};
      r := this;
    }

    /** Excluding(selector): adds the selected member to the excluded members; a selector that is
        not a direct member access throws before any table is touched. */
    method ExcludingMember(selector: Selector) returns (r: Result<PrintingConfig>)
      modifies this
      ensures selector.body.OtherExpression? ==>
                r == Thrown(ArgumentException) && Snapshot() == old(Snapshot())
      ensures selector.body.MemberAccess? ==>
                r == Ok(this) &&
                Snapshot() == old(Snapshot()).(excludedMember := old(ExcludedMember) + {selector.body.member})
    {
      var m := GetMember(selector);
      if m.Thrown? {
        return Thrown(m.error);
      }
      ExcludedMember := ExcludedMember + {m.value};
      r := Ok(this);
    }

    /** Printing<T>(): a type-level handle for T bound to this configuration; no table is written. */
    method PrintingType(t: TypeDesc) returns (handle: MemberPrintingConfig)
      ensures fresh(handle)
      ensures handle.Owner == this && handle.MemberType == t && handle.MemberInfo == None
    {
      handle := new MemberPrintingConfig(this, t, None);
    }

    /** Printing(stringSelector): a member-level handle for the selected string member; no table
        is written, and a selector that is not a member access throws. */
    method PrintingMember(selector: Selector) returns (r: Result<StintingPrintConfig>)
      ensures selector.body.OtherExpression? ==> r == Thrown(ArgumentException)
      ensures selector.body.MemberAccess? ==>
                r.Ok? && fresh(r.value) && fresh(r.value.Base) &&
                r.value.Owner == this && r.value.MemberInfo == selector.body.member &&
                r.value.Base.Owner == this && r.value.Base.MemberType == StringType &&
                r.value.Base.MemberInfo == Some(selector.body.member)
    {
      var m := GetMember(selector);
      if m.Thrown? {
        return Thrown(m.error);
      }
      var handle := new StintingPrintConfig(this, m.value);
      r := Ok(handle);
    }
  }

  /** A handle on one type (MemberInfo == None) or one member of a configuration. */
  class MemberPrintingConfig {
    const Owner: PrintingConfig
    const MemberType: TypeDesc
    const MemberInfo: Option<MemberKey>

    constructor (owner: PrintingConfig, memberType: TypeDesc, memberInfo: Option<MemberKey>)
      ensures Owner == owner && MemberType == memberType && MemberInfo == memberInfo
    {
      Owner, MemberType, MemberInfo := owner, memberType, memberInfo;
    }

    /** Using(fn): registers fn for the type when the handle has no member, else for the member. */
    method Using(fn: Formatter) returns (r: PrintingConfig)
      modifies Owner
      ensures r == Owner
      ensures MemberInfo.None? ==>
                Owner.Snapshot() == old(Owner.Snapshot()).(
                  customTypeSerializers := old(Owner.CustomTypeSerializers)[MemberType := fn])
      ensures MemberInfo.Some? ==>
                Owner.Snapshot() == old(Owner.Snapshot()).(
                  customMemberSerializers := old(Owner.CustomMemberSerializers)[MemberInfo.value := fn])
    {
      if MemberInfo.None? {
        Owner.CustomTypeSerializers := Owner.CustomTypeSerializers[MemberType := fn];
      } else {
        Owner.CustomMemberSerializers := Owner.CustomMemberSerializers[MemberInfo.value := fn];
      }
      r := Owner;
    }

    /** Using(culture): always a type-level entry, even on a member handle. */
    method UsingCulture(culture: Culture) returns (r: PrintingConfig)
      modifies Owner
      ensures r == Owner
      ensures Owner.Snapshot() == old(Owner.Snapshot()).(
                culturesForTypes := old(Owner.CulturesForTypes)[MemberType := culture])
    {
      Owner.CulturesForTypes := Owner.CulturesForTypes[MemberType := culture];
      r := Owner;
    }

    /** TrimmedToLength(n): a negative n throws and writes nothing; otherwise the length is
        registered for the type or for the member. */
    method TrimmedToLength(length: int) returns (r: Result<PrintingConfig>)
      modifies Owner
      ensures length < 0 ==> r == Thrown(ArgumentOutOfRangeException) && Owner.Snapshot() == old(Owner.Snapshot())
      ensures 0 <= length ==> r == Ok(Owner)
      ensures 0 <= length && MemberInfo.None? ==>
                Owner.Snapshot() == old(Owner.Snapshot()).(
                  trimmedTypes := old(Owner.TrimmedTypes)[MemberType := length])
      ensures 0 <= length && MemberInfo.Some? ==>
                Owner.Snapshot() == old(Owner.Snapshot()).(
                  trimmedMembers := old(Owner.TrimmedMembers)[MemberInfo.value := length])
    {
      if length < 0 {
        return Thrown(ArgumentOutOfRangeException);
      }
      if MemberInfo.None? {
        Owner.TrimmedTypes := Owner.TrimmedTypes[MemberType := length];
      } else {
        Owner.TrimmedMembers := Owner.TrimmedMembers[MemberInfo.value := length];
      }
      r := Ok(Owner);
    }
  }

  /** The handle on one string member. Its MemberPrintingConfig part is `Base`; the inherited
      Using and UsingCulture act through it. */
  class StintingPrintConfig {
    const Owner: PrintingConfig
    const MemberInfo: MemberKey
    const Base: MemberPrintingConfig

    constructor (owner: PrintingConfig, memberInfo: MemberKey)
      ensures Owner == owner && MemberInfo == memberInfo && fresh(Base)
      ensures Base.Owner == owner && Base.MemberType == StringType && Base.MemberInfo == Some(memberInfo)
    {
      Owner, MemberInfo := owner, memberInfo;
      Base := new MemberPrintingConfig(owner, StringType, Some(memberInfo));
    }

    /** TrimmedToLength(n): stores n for the member with no sign check, unlike the base method. */
    method TrimmedToLength(length: int) returns (r: PrintingConfig)
      modifies Owner
      ensures r == Owner
      ensures Owner.Snapshot() == old(Owner.Snapshot()).(
                trimmedMembers := old(Owner.TrimmedMembers)[MemberInfo := length])
    {
      Owner.TrimmedMembers := Owner.TrimmedMembers[MemberInfo := length];
      r := Owner;
    }

    /** The inherited Using(fn): the member is never null here, so it is always a member-level entry. */
    method Using(fn: Formatter) returns (r: PrintingConfig)
      requires Base.Owner == Owner && Base.MemberInfo == Some(MemberInfo)
      modifies Owner
      ensures r == Owner
      ensures Owner.Snapshot() == old(Owner.Snapshot()).(
                customMemberSerializers := old(Owner.CustomMemberSerializers)[MemberInfo := fn])
    {
      r := Base.Using(fn);
    }

    /** The inherited Using(culture): a type-level entry for String. */
    method UsingCulture(culture: Culture) returns (r: PrintingConfig)
      requires Base.Owner == Owner && Base.MemberType == StringType
      modifies Owner
      ensures r == Owner
      ensures Owner.Snapshot() == old(Owner.Snapshot()).(
                culturesForTypes := old(Owner.CulturesForTypes)[StringType := culture])
    {
      r := Base.UsingCulture(culture);
    }
  }
}
