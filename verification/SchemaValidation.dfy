/** Validation of one object type against the whole schema, and of the schema. */
module SchemaValidation {
  import opened Names
  import opened Options
  import opened Schemas

  datatype Problem =
    | RepeatedType(ty: string)
    | RepeatedAlias(alias: string)
    | RepeatedProperty(name: string)
    | AliasIsName(property: string, alias: string)
    | MustBeArray(property: string)
    | CannotBeNullable(property: string)
    | MustBeNullable(property: string)
    | CannotBePrimary(property: string)
    | SecondPrimary(property: string, first: string)
    | CannotBeIndexed(property: string)
    | CannotHaveOrigin(property: string)
    | MustHaveOrigin(property: string)
    | CannotHaveObjectType(property: string)
    | UnknownObjectType(property: string)
    | OriginMissing(property: string)
    | OriginIsNotLink(property: string)
    | OriginLinksElsewhere(property: string)
    | PrimaryKeyMissing(key: string)

  // ---------------------------------------------------------------- what is well formed

  /** The type a link leads to, if the schema has it. */
  ghost function Target(schema: Schema, p: Property): Option<ObjectSchema> {
    match Find(schema, p.objectType)
    case None => None
    case Some(i) => Some(schema[i])
  }

  /** A backlink is a required list whose origin is a link from the other type back to this one. */
  ghost predicate LegalBacklink(schema: Schema, owner: string, p: Property) {
    && p.ty.isArray && !p.ty.isNullable && !p.isPrimary && !p.isIndexed && p.origin != ""
    && Target(schema, p).Some?
    && var back := PropertyForName(Target(schema, p).value, p.origin);
       back.Some? && back.value.ty.base.Object? && back.value.objectType == owner
  }

  /** A link is optional or a list, not both, and leads to a type of the schema. */
  ghost predicate LegalLink(schema: Schema, p: Property) {
    && p.ty.isArray != p.ty.isNullable && !p.isPrimary && !p.isIndexed && p.origin == ""
    && Target(schema, p).Some?
  }

  ghost predicate LegalValue(p: Property) {
    && p.objectType == "" && p.origin == ""
    && (p.isPrimary ==> p.ty.base.Int? || p.ty.base.String?)
    && (p.isIndexed ==> IsIndexable(p.ty))
  }

  ghost predicate Legal(schema: Schema, owner: string, p: Property) {
    match p.ty.base
    case LinkingObjects => LegalBacklink(schema, owner, p)
    case Object => LegalLink(schema, p)
    case _ => LegalValue(p)
  }

  ghost function PropertyNames(props: seq<Property>): seq<string> {
    if props == [] then [] else [props[0].name] + PropertyNames(props[1..])
  }

  ghost function Aliases(props: seq<Property>): seq<string> {
    if props == [] then []
    else if props[0].publicName == "" then Aliases(props[1..])
    else [props[0].publicName] + Aliases(props[1..])
  }

  ghost predicate AllDistinct(names: seq<string>) {
    forall x :: multiset(names)[x] <= 1
  }

  ghost predicate Disjoint(names: seq<string>, others: seq<string>) {
    forall x | x in names :: x !in others
  }

  ghost predicate OnePrimaryAtMost(props: seq<Property>) {
    forall i, j | 0 <= i < j < |props| :: !(props[i].isPrimary && props[j].isPrimary)
  }

  ghost predicate NamesFit(os: ObjectSchema) {
    && AllDistinct(PropertyNames(Properties(os)))
    && AllDistinct(Aliases(Properties(os)))
    && Disjoint(PropertyNames(Properties(os)), Aliases(Properties(os)))
  }

  ghost predicate PropertiesFit(schema: Schema, os: ObjectSchema) {
    && (forall p | p in Properties(os) :: Legal(schema, os.name, p))
    && OnePrimaryAtMost(Properties(os))
  }

  ghost predicate KeyFits(os: ObjectSchema) {
    os.primaryKey == "" || exists p | p in Properties(os) :: p.isPrimary || p.name == os.primaryKey
  }

  ghost predicate WellFormed(schema: Schema, os: ObjectSchema) {
    NamesFit(os) && PropertiesFit(schema, os) && KeyFits(os)
  }

  // ---------------------------------------------------------------- one property

  ghost function ShapeProblems(p: Property): seq<Problem> {
    (if p.ty.base.LinkingObjects? && !p.ty.isArray then [MustBeArray(p.name)] else []) +
    (if p.ty.isNullable && !IsNullable(p.ty) then [CannotBeNullable(p.name)]
     else if p.ty.base.Object? && !p.ty.isNullable && !p.ty.isArray then [MustBeNullable(p.name)] else [])
  }

  ghost function KeyProblems(p: Property, primary: Option<Property>): seq<Problem> {
    (if p.isPrimary && !p.ty.base.Int? && !p.ty.base.String? then [CannotBePrimary(p.name)] else []) +
    (if p.isPrimary && primary.Some? then [SecondPrimary(p.name, primary.value.name)] else []) +
    (if p.isIndexed && !IsIndexable(p.ty) then [CannotBeIndexed(p.name)] else [])
  }

  ghost function OriginProblems(p: Property): seq<Problem> {
    if !p.ty.base.LinkingObjects? && p.origin != "" then [CannotHaveOrigin(p.name)]
    else if p.ty.base.LinkingObjects? && p.origin == "" then [MustHaveOrigin(p.name)]
    else []
  }

  ghost function TargetProblems(schema: Schema, owner: string, p: Property): seq<Problem> {
    if !p.ty.base.Object? && !p.ty.base.LinkingObjects? then
      if p.objectType != "" then [CannotHaveObjectType(p.name)] else []
    else if Target(schema, p).None? then [UnknownObjectType(p.name)]
    else if !p.ty.base.LinkingObjects? then []
    else
      match PropertyForName(Target(schema, p).value, p.origin)
      case None => [OriginMissing(p.name)]
      case Some(back) =>
        if !back.ty.base.Object? then [OriginIsNotLink(p.name)]
        else if back.objectType != owner then [OriginLinksElsewhere(p.name)]
        else []
  }

  ghost function PropertyProblems(schema: Schema, owner: string, p: Property, primary: Option<Property>): seq<Problem> {
    ShapeProblems(p) + KeyProblems(p, primary) + OriginProblems(p) + TargetProblems(schema, owner, p)
  }

  /** A property draws no complaint exactly if it is legal and not a second primary key. */
  lemma {:induction false} NoPropertyProblems(schema: Schema, owner: string, p: Property, primary: Option<Property>)
    ensures PropertyProblems(schema, owner, p, primary) == [] <==>
              Legal(schema, owner, p) && !(p.isPrimary && primary.Some?)
  {
  }

  // ---------------------------------------------------------------- which problem when

  /** What each problem of a property comes from, first being the primary property before it. */
  ghost predicate Causes(schema: Schema, owner: string, p: Property, first: Option<Property>, q: Problem) {
    match q
    case MustBeArray(n) => n == p.name && p.ty.base.LinkingObjects? && !p.ty.isArray
    case CannotBeNullable(n) =>
      n == p.name && p.ty.isNullable && (p.ty.base.LinkingObjects? || (p.ty.base.Object? && p.ty.isArray))
    case MustBeNullable(n) => n == p.name && p.ty.base.Object? && !p.ty.isNullable && !p.ty.isArray
    case CannotBePrimary(n) => n == p.name && p.isPrimary && !(p.ty.base.Int? || p.ty.base.String?)
    case SecondPrimary(n, m) => n == p.name && p.isPrimary && first.Some? && m == first.value.name
    case CannotBeIndexed(n) =>
      n == p.name && p.isIndexed && !(p.ty.base.Int? || p.ty.base.Bool? || p.ty.base.Date? || p.ty.base.String?)
    case CannotHaveOrigin(n) => n == p.name && !p.ty.base.LinkingObjects? && p.origin != ""
    case MustHaveOrigin(n) => n == p.name && p.ty.base.LinkingObjects? && p.origin == ""
    case CannotHaveObjectType(n) =>
      n == p.name && !p.ty.base.Object? && !p.ty.base.LinkingObjects? && p.objectType != ""
    case UnknownObjectType(n) =>
      n == p.name && (p.ty.base.Object? || p.ty.base.LinkingObjects?) && Find(schema, p.objectType).None?
    case OriginMissing(n) =>
      n == p.name && p.ty.base.LinkingObjects? && Find(schema, p.objectType).Some? &&
      PropertyForName(schema[Find(schema, p.objectType).value], p.origin).None?
    case OriginIsNotLink(n) =>
      n == p.name && p.ty.base.LinkingObjects? && Find(schema, p.objectType).Some? &&
      var back := PropertyForName(schema[Find(schema, p.objectType).value], p.origin);
      back.Some? && !back.value.ty.base.Object?
    case OriginLinksElsewhere(n) =>
      n == p.name && p.ty.base.LinkingObjects? && Find(schema, p.objectType).Some? &&
      var back := PropertyForName(schema[Find(schema, p.objectType).value], p.origin);
      back.Some? && back.value.ty.base.Object? && back.value.objectType != owner
    case _ => false
  }

  /** The place of each problem among those of one property. */
  ghost function Place(q: Problem): nat {
    match q
    case MustBeArray(_) => 0
    case CannotBeNullable(_) => 1
    case MustBeNullable(_) => 2
    case CannotBePrimary(_) => 3
    case SecondPrimary(_, _) => 4
    case CannotBeIndexed(_) => 5
    case CannotHaveOrigin(_) => 6
    case MustHaveOrigin(_) => 7
    case CannotHaveObjectType(_) => 8
    case UnknownObjectType(_) => 9
    case OriginMissing(_) => 10
    case OriginIsNotLink(_) => 11
    case OriginLinksElsewhere(_) => 12
    case _ => 13
  }

  ghost predicate InPlaceOrder(problems: seq<Problem>, from: nat, to: nat) {
    && (forall i | 0 <= i < |problems| :: from <= Place(problems[i]) < to)
    && (forall i, j | 0 <= i < j < |problems| :: Place(problems[i]) < Place(problems[j]))
  }

  lemma {:induction false} PlaceOrderAppend(a: seq<Problem>, b: seq<Problem>, from: nat, mid: nat, to: nat)
    requires from <= mid <= to && InPlaceOrder(a, from, mid) && InPlaceOrder(b, mid, to)
    ensures InPlaceOrder(a + b, from, to)
  {
    hide Place;
  }

  lemma {:induction false} ProblemsInPlaceOrder(schema: Schema, owner: string, p: Property, first: Option<Property>)
    ensures InPlaceOrder(PropertyProblems(schema, owner, p, first), 0, 13)
  {
    hide InPlaceOrder, ShapeProblems, KeyProblems, OriginProblems, TargetProblems;
    var a, b, c, d := ShapeProblems(p), KeyProblems(p, first), OriginProblems(p), TargetProblems(schema, owner, p);
    ShapeInPlaceOrder(p);
    KeyInPlaceOrder(p, first);
    OriginInPlaceOrder(p);
    TargetInPlaceOrder(schema, owner, p);
    PlaceOrderAppend(a, b, 0, 3, 6);
    PlaceOrderAppend(a + b, c, 0, 6, 8);
    PlaceOrderAppend(a + b + c, d, 0, 8, 13);
  }

  lemma {:induction false} ShapeInPlaceOrder(p: Property)
    ensures InPlaceOrder(ShapeProblems(p), 0, 3)
  {
  }

  lemma {:induction false} KeyInPlaceOrder(p: Property, first: Option<Property>)
    ensures InPlaceOrder(KeyProblems(p, first), 3, 6)
  {
  }

  lemma {:induction false} OriginInPlaceOrder(p: Property)
    ensures InPlaceOrder(OriginProblems(p), 6, 8)
  {
  }

  lemma {:induction false} TargetInPlaceOrder(schema: Schema, owner: string, p: Property)
    ensures InPlaceOrder(TargetProblems(schema, owner, p), 8, 13)
  {
  }

  lemma {:induction false} ShapeCauses(schema: Schema, owner: string, p: Property, first: Option<Property>, q: Problem)
    ensures q in ShapeProblems(p) <==> Place(q) < 3 && Causes(schema, owner, p, first, q)
  {
  }

  lemma {:induction false} KeyCauses(schema: Schema, owner: string, p: Property, first: Option<Property>, q: Problem)
    ensures q in KeyProblems(p, first) <==> 3 <= Place(q) < 6 && Causes(schema, owner, p, first, q)
  {
  }

  lemma {:induction false} OriginCauses(schema: Schema, owner: string, p: Property, first: Option<Property>, q: Problem)
    ensures q in OriginProblems(p) <==> 6 <= Place(q) < 8 && Causes(schema, owner, p, first, q)
  {
  }

  lemma {:induction false} TargetCauses(schema: Schema, owner: string, p: Property, first: Option<Property>, q: Problem)
    ensures q in TargetProblems(schema, owner, p) <==> 8 <= Place(q) && Causes(schema, owner, p, first, q)
  {
  }

  /** Each problem is among those of a property exactly if its cause is there, once and in its place. */
  lemma {:induction false} EachProblemHasItsCause(schema: Schema, owner: string, p: Property, first: Option<Property>, q: Problem)
    ensures q in PropertyProblems(schema, owner, p, first) <==> Causes(schema, owner, p, first, q)
    ensures InPlaceOrder(PropertyProblems(schema, owner, p, first), 0, 13)
  {
    hide Causes, InPlaceOrder, ShapeProblems, KeyProblems, OriginProblems, TargetProblems;
    ProblemsInPlaceOrder(schema, owner, p, first);
    ShapeCauses(schema, owner, p, first, q);
    KeyCauses(schema, owner, p, first, q);
    OriginCauses(schema, owner, p, first, q);
    TargetCauses(schema, owner, p, first, q);
  }

  /** The checks of the list and optional flags. */
  method ValidateShape(p: Property, exceptions: seq<Problem>) returns (exceptionsNow: seq<Problem>)
    ensures exceptionsNow == exceptions + ShapeProblems(p)
  {
    exceptionsNow := exceptions;
    if p.ty.base == LinkingObjects && !p.ty.isArray {
      exceptionsNow := exceptionsNow + [MustBeArray(p.name)];
    }
    if p.ty.isNullable && !IsNullable(p.ty) {
      exceptionsNow := exceptionsNow + [CannotBeNullable(p.name)];
    } else if p.ty.base == Object && !p.ty.isNullable && !p.ty.isArray {
      exceptionsNow := exceptionsNow + [MustBeNullable(p.name)];
    }
  }

  /** The check that backlinks, and only they, name an origin. */
  method ValidateOrigin(p: Property, exceptions: seq<Problem>) returns (exceptionsNow: seq<Problem>)
    ensures exceptionsNow == exceptions + OriginProblems(p)
  {
    if p.ty.base != LinkingObjects && p.origin != "" {
      return exceptions + [CannotHaveOrigin(p.name)];
    } else if p.ty.base == LinkingObjects && p.origin == "" {
      return exceptions + [MustHaveOrigin(p.name)];
    }
    return exceptions;
  }

  /** The checks of the primary key and the index. */
  method ValidateKeys(p: Property, primary: Option<Property>, exceptions: seq<Problem>)
    returns (primaryNow: Option<Property>, exceptionsNow: seq<Problem>)
    ensures primaryNow == if p.isPrimary then Some(p) else primary
    ensures exceptionsNow == exceptions + KeyProblems(p, primary)
  {
    primaryNow, exceptionsNow := primary, exceptions;
    if p.isPrimary {
      if p.ty.base != Int && p.ty.base != String {
        exceptionsNow := exceptionsNow + [CannotBePrimary(p.name)];
      }
      if primaryNow.Some? {
        exceptionsNow := exceptionsNow + [SecondPrimary(p.name, primaryNow.value.name)];
      }
      primaryNow := Some(p);
    }
    if p.isIndexed && !IsIndexable(p.ty) {
      exceptionsNow := exceptionsNow + [CannotBeIndexed(p.name)];
    }
  }

  /** The checks of the type a property leads to, up to the reciprocity of backlinks. */
  method ValidateTarget(schema: Schema, owner: string, p: Property, exceptions: seq<Problem>)
    returns (exceptionsNow: seq<Problem>)
    ensures exceptionsNow == exceptions + TargetProblems(schema, owner, p)
  {
    if p.ty.base != Object && p.ty.base != LinkingObjects {
      if p.objectType != "" {
        return exceptions + [CannotHaveObjectType(p.name)];
      }
      return exceptions;
    }
    var it := Find(schema, p.objectType);
    if it.None? {
      return exceptions + [UnknownObjectType(p.name)];
    }
    if p.ty.base != LinkingObjects {
      return exceptions;
    }
    var origin := PropertyForName(schema[it.value], p.origin);
    if origin.None? {
      return exceptions + [OriginMissing(p.name)];
    } else if origin.value.ty.base != Object {
      return exceptions + [OriginIsNotLink(p.name)];
    } else if origin.value.objectType != owner {
      return exceptions + [OriginLinksElsewhere(p.name)];
    }
    return exceptions;
  }

  method ValidateProperty(schema: Schema, owner: string, p: Property, primary: Option<Property>,
                          exceptions: seq<Problem>)
    returns (primaryNow: Option<Property>, exceptionsNow: seq<Problem>)
    ensures primaryNow == if p.isPrimary then Some(p) else primary
    ensures exceptionsNow == exceptions + PropertyProblems(schema, owner, p, primary)
    ensures forall q :: q in exceptionsNow[|exceptions|..] <==> Causes(schema, owner, p, primary, q)
  {
    hide ShapeProblems, KeyProblems, OriginProblems, TargetProblems, Causes;
    forall q ensures q in PropertyProblems(schema, owner, p, primary) <==> Causes(schema, owner, p, primary, q) {
      EachProblemHasItsCause(schema, owner, p, primary, q);
    }
    exceptionsNow := ValidateShape(p, exceptions);
    primaryNow, exceptionsNow := ValidateKeys(p, primary, exceptionsNow);
    exceptionsNow := ValidateOrigin(p, exceptionsNow);
    exceptionsNow := ValidateTarget(schema, owner, p, exceptionsNow);
  }

  // ---------------------------------------------------------------- all properties in turn

  ghost function PrimaryAfter(props: seq<Property>, primary: Option<Property>): Option<Property> {
    if props == [] then primary
    else PrimaryAfter(props[1..], if props[0].isPrimary then Some(props[0]) else primary)
  }

  ghost function AllPropertyProblems(schema: Schema, owner: string, props: seq<Property>, primary: Option<Property>): seq<Problem> {
    if props == [] then []
    else
      PropertyProblems(schema, owner, props[0], primary) +
      AllPropertyProblems(schema, owner, props[1..], if props[0].isPrimary then Some(props[0]) else primary)
  }

  lemma {:induction false} PrimaryAfterIs(props: seq<Property>, primary: Option<Property>)
    ensures PrimaryAfter(props, primary).None? <==> primary.None? && forall p | p in props :: !p.isPrimary
  {
    if props != [] {
      PrimaryAfterIs(props[1..], if props[0].isPrimary then Some(props[0]) else primary);
      assert forall p :: p in props <==> p == props[0] || p in props[1..];
    }
  }

  lemma {:induction false} NoProblemsInAny(schema: Schema, owner: string, props: seq<Property>, primary: Option<Property>)
    ensures AllPropertyProblems(schema, owner, props, primary) == [] <==>
              && (forall p | p in props :: Legal(schema, owner, p))
              && OnePrimaryAtMost(props)
              && (primary.Some? ==> forall p | p in props :: !p.isPrimary)
  {
    if props != [] {
      NoPropertyProblems(schema, owner, props[0], primary);
      NoProblemsInAny(schema, owner, props[1..], if props[0].isPrimary then Some(props[0]) else primary);
      assert forall p :: p in props <==> p == props[0] || p in props[1..];
      OnePrimaryUnfolds(props);
    }
  }

  lemma {:induction false} OnePrimaryUnfolds(props: seq<Property>)
    requires props != []
    ensures OnePrimaryAtMost(props) <==>
              OnePrimaryAtMost(props[1..]) && (props[0].isPrimary ==> forall p | p in props[1..] :: !p.isPrimary)
  {
    if OnePrimaryAtMost(props) {
      forall i, j | 0 <= i < j < |props[1..]| ensures !(props[1..][i].isPrimary && props[1..][j].isPrimary) {
        assert props[1..][i] == props[i + 1] && props[1..][j] == props[j + 1];
      }
    }
    if OnePrimaryAtMost(props[1..]) && (props[0].isPrimary ==> forall p | p in props[1..] :: !p.isPrimary) {
      forall i, j | 0 <= i < j < |props| ensures !(props[i].isPrimary && props[j].isPrimary) {
        assert props[j] == props[1..][j - 1];
        assert props[j] in props[1..];
        assert i > 0 ==> props[i] == props[1..][i - 1];
      }
    }
  }

  // ---------------------------------------------------------------- the whole type

  function Mapped(f: string --> Problem, names: seq<string>): seq<Problem>
    requires forall x | x in names :: f.requires(x)
  {
    if names == [] then [] else [f(names[0])] + Mapped(f, names[1..])
  }

  function RepeatedAliases(names: seq<string>): seq<Problem> {
    Mapped(x => RepeatedAlias(x), names)
  }

  function RepeatedProperties(names: seq<string>): seq<Problem> {
    Mapped(x => RepeatedProperty(x), names)
  }

  /** The complaint about an alias names the property that its public name finds. */
  function Conflicts(os: ObjectSchema, names: seq<string>): seq<Problem>
    requires forall x | x in names :: PropertyForPublicName(os, x).Some?
  {
    Mapped(x requires PropertyForPublicName(os, x).Some? =>
             AliasIsName(PropertyForPublicName(os, x).value.name, x), names)
  }

  ghost function KeyMissing(os: ObjectSchema): seq<Problem> {
    if os.primaryKey != "" && PrimaryAfter(Properties(os), None).None? && PropertyForName(os, os.primaryKey).None?
    then [PrimaryKeyMissing(os.primaryKey)] else []
  }

  lemma {:induction false} AliasesAre(props: seq<Property>, x: string)
    ensures x in Aliases(props) <==> x != "" && exists p | p in props :: p.publicName == x
  {
    if props != [] {
      AliasesAre(props[1..], x);
      assert forall p :: p in props <==> p == props[0] || p in props[1..];
    }
  }

  lemma {:induction false} NamesAre(props: seq<Property>, x: string)
    ensures x in PropertyNames(props) <==> exists p | p in props :: p.name == x
  {
    if props != [] {
      NamesAre(props[1..], x);
      assert forall p :: p in props <==> p == props[0] || p in props[1..];
    }
  }

  ghost function Shared(os: ObjectSchema): seq<string> {
    Common(Sort(Aliases(Properties(os))), Sort(PropertyNames(Properties(os))))
  }

  /** Looking up the owner of a conflicting alias never comes back empty-handed. */
  lemma {:induction false} ConflictsResolve(os: ObjectSchema)
    ensures forall x | x in Shared(os) :: PropertyForPublicName(os, x).Some?
  {
    var aliases := Aliases(Properties(os));
    var names := PropertyNames(Properties(os));
    SortSorts(aliases);
    SortSorts(names);
    CommonCounts(Sort(aliases), Sort(names));
    forall x | x in Shared(os) ensures PropertyForPublicName(os, x).Some? {
      assert x in multiset(Shared(os));
      assert x in multiset(aliases);
      AliasesAre(Properties(os), x);
      var p :| p in Properties(os) && p.publicName == x;
      assert IsCalledPublicly(p, x) && PublicNameOf(p) == x;
      assert p in os.persisted || p in os.computed;
      PropertyForPublicNameFinds(os, x);
    }
  }

  ghost function NameProblems(os: ObjectSchema): seq<Problem>
    requires forall x | x in Shared(os) :: PropertyForPublicName(os, x).Some?
  {
    RepeatedAliases(Duplicates(Sort(Aliases(Properties(os))))) +
    RepeatedProperties(Duplicates(Sort(PropertyNames(Properties(os))))) +
    Conflicts(os, Shared(os))
  }

  ghost function Problems(schema: Schema, os: ObjectSchema): seq<Problem> {
    ConflictsResolve(os);
    NameProblems(os) +
    AllPropertyProblems(schema, os.name, Properties(os), None) +
    KeyMissing(os)
  }

  lemma {:induction false} NoDuplicates(names: seq<string>)
    ensures Duplicates(Sort(names)) == [] <==> AllDistinct(names)
  {
    var d := Duplicates(Sort(names));
    SortSorts(names);
    forall x ensures multiset(d)[x] == multiset(names)[x] / 2 {
      DuplicatesHalve(Sort(names), x);
    }
    if d != [] {
      assert d[0] in multiset(d);
    }
  }

  lemma {:induction false} SharedMember(os: ObjectSchema, x: string)
    ensures x in Shared(os) <==> x in PropertyNames(Properties(os)) && x in Aliases(Properties(os))
  {
    var aliases := Aliases(Properties(os));
    var names := PropertyNames(Properties(os));
    SortSorts(aliases);
    SortSorts(names);
    CommonCounts(Sort(aliases), Sort(names));
    assert x in Shared(os) <==> x in multiset(Shared(os));
    assert x in names <==> x in multiset(names);
    assert x in aliases <==> x in multiset(aliases);
  }

  lemma {:induction false} NoneShared(os: ObjectSchema)
    ensures Shared(os) == [] <==> Disjoint(PropertyNames(Properties(os)), Aliases(Properties(os)))
  {
    if Shared(os) != [] {
      var x := Shared(os)[0];
      assert x in Shared(os);
      SharedMember(os, x);
    } else {
      forall x | x in PropertyNames(Properties(os)) ensures x !in Aliases(Properties(os)) {
        SharedMember(os, x);
      }
    }
  }

  lemma {:induction false} NoNameProblems(os: ObjectSchema)
    requires forall x | x in Shared(os) :: PropertyForPublicName(os, x).Some?
    ensures NameProblems(os) == [] <==> NamesFit(os)
  {
    NoDuplicates(Aliases(Properties(os)));
    NoDuplicates(PropertyNames(Properties(os)));
    NoneShared(os);
  }

  lemma {:induction false} NoKeyMissing(os: ObjectSchema)
    ensures KeyMissing(os) == [] <==> KeyFits(os)
  {
    PrimaryAfterIs(Properties(os), None);
    PropertyForNameFinds(os, os.primaryKey);
  }

  /** Validation is silent exactly on the well-formed types. */
  lemma {:induction false} SilentIffWellFormed(schema: Schema, os: ObjectSchema)
    ensures Problems(schema, os) == [] <==> WellFormed(schema, os)
  {
    ConflictsResolve(os);
    NoNameProblems(os);
    NoProblemsInAny(schema, os.name, Properties(os), None);
    NoKeyMissing(os);
  }

  // ---------------------------------------------------------------- reports that mislead

  /** Every property that is named x without an alias comes after one with the alias x. */
  ghost predicate AliasComesFirst(props: seq<Property>, x: string) {
    forall i | 0 <= i < |props| && props[i].publicName == "" && props[i].name == x ::
      exists j :: 0 <= j < i && props[j].publicName == x
  }

  /** A property with the alias has a first one before it with that public name. */
  lemma {:induction false} FirstWithPublicName(props: seq<Property>, x: string, n: nat) returns (k: nat)
    requires n < |props| && PublicNameOf(props[n]) == x
    ensures k <= n && IsFirstOfPublicName(props, x, k)
  {
    if i: nat :| i < n && PublicNameOf(props[i]) == x {
      k := FirstWithPublicName(props, x, i);
    } else {
      k := n;
    }
  }

  /** A conflict is reported under a property with the alias exactly if in search order every property
      that has it for a name only comes after one with the alias. */
  lemma {:induction false} ConflictOwner(os: ObjectSchema, x: string)
    requires x in Shared(os)
    ensures PropertyForPublicName(os, x).Some?
    ensures PropertyForPublicName(os, x).value.publicName == x <==> AliasComesFirst(Properties(os), x)
  {
    var props := Properties(os);
    SharedMember(os, x);
    AliasesAre(props, x);
    var n: nat :| n < |props| && props[n].publicName == x;
    var k := FirstWithPublicName(props, x, n);
    PublicSearchOrder(os, x, k);
    if props[k].publicName == x {
      forall i | 0 <= i < |props| && props[i].publicName == "" && props[i].name == x
        ensures exists j :: 0 <= j < i && props[j].publicName == x
      {
        assert PublicNameOf(props[i]) == x;
        assert k < i;
      }
    }
  }

  function Plain(name: string, publicName: string, isPrimary: bool): Property {
    Property(name, publicName, PropertyType(Int, false, false), "", "", isPrimary, false, 0)
  }

  /** Of two properties, one named x and one with the alias x, the one without the alias is reported. */
  lemma {:induction false} WrongOwnerExample(os: ObjectSchema)
    requires os == ObjectSchema("T", [Plain("x", "", false), Plain("y", "x", false)], [], "")
    ensures "x" in Shared(os)
    ensures PropertyForPublicName(os, "x") == Some(Plain("x", "", false))
    ensures !AliasComesFirst(Properties(os), "x")
  {
    var props := Properties(os);
    assert props == [Plain("x", "", false), Plain("y", "x", false)];
    AliasesAre(props, "x");
    NamesAre(props, "x");
    assert props[1] in props && props[0] in props;
    SharedMember(os, "x");
    PublicSearchOrder(os, "x", 0);
    ConflictOwner(os, "x");
  }

  /** A name longer than any of the properties' names. */
  ghost function Unused(props: seq<Property>): (name: string)
    ensures name != "" && forall p | p in props :: |p.name| < |name|
  {
    if props == [] then "a" else Unused(props[1..]) + props[0].name + "a"
  }

  /** Whatever its primary key is called, a type that passes has a property of that name. */
  ghost predicate KeysAreNames(schema: Schema, os: ObjectSchema) {
    forall key | key != "" && WellFormed(schema, os.(primaryKey := key)) ::
      exists p | p in Properties(os) :: p.name == key
  }

  /** For a type sound but for its key, that holds exactly if no property is marked as primary. */
  lemma {:induction false} KeysAreNamesIff(schema: Schema, os: ObjectSchema)
    requires NamesFit(os) && PropertiesFit(schema, os)
    ensures KeysAreNames(schema, os) <==> forall p | p in Properties(os) :: !p.isPrimary
  {
    if p :| p in Properties(os) && p.isPrimary {
      var key := Unused(Properties(os));
      var keyed := os.(primaryKey := key);
      assert Properties(keyed) == Properties(os);
      assert WellFormed(schema, keyed);
      assert forall q | q in Properties(os) :: q.name != key;
    }
    forall key | key != "" ensures Properties(os.(primaryKey := key)) == Properties(os) {
    }
  }

  /** A type with the key a passes on the strength of its primary property b. */
  lemma {:induction false} ForeignKeyExample(schema: Schema, os: ObjectSchema)
    requires os == ObjectSchema("T", [Plain("b", "", true)], [], "a")
    ensures Problems(schema, os) == [] && PropertyForName(os, "a").None?
  {
    var b := Plain("b", "", true);
    assert Properties(os) == [b] && PropertyNames([b]) == ["b"] && Aliases([b]) == [];
    assert WellFormed(schema, os) by {
      assert b in Properties(os);
    }
    SilentIffWellFormed(schema, os);
    PropertyForNameFinds(os, "a");
  }

  // ---------------------------------------------------------------- how often each is reported

  lemma {:induction false} MappedCounts(f: string --> Problem, names: seq<string>, x: string)
    requires f.requires(x) && forall y | y in names :: f.requires(y) && (f(y) == f(x) ==> y == x)
    ensures multiset(Mapped(f, names))[f(x)] == multiset(names)[x]
  {
    if names != [] {
      MappedCounts(f, names[1..], x);
      assert names == [names[0]] + names[1..];
    }
  }

  lemma {:induction false} MappedFrom(f: string --> Problem, names: seq<string>, q: Problem)
    requires forall y | y in names :: f.requires(y)
    requires forall y | y in names :: f(y) != q
    ensures multiset(Mapped(f, names))[q] == 0
  {
    if names != [] {
      MappedFrom(f, names[1..], q);
    }
  }

  predicate AboutNames(q: Problem) {
    q.RepeatedAlias? || q.RepeatedProperty? || q.AliasIsName?
  }

  lemma {:induction false} ProblemsCount(schema: Schema, os: ObjectSchema, q: Problem)
    requires AboutNames(q)
    requires forall x | x in Shared(os) :: PropertyForPublicName(os, x).Some?
    ensures multiset(Problems(schema, os))[q] ==
            multiset(RepeatedAliases(Duplicates(Sort(Aliases(Properties(os))))))[q] +
            multiset(RepeatedProperties(Duplicates(Sort(PropertyNames(Properties(os))))))[q] +
            multiset(Conflicts(os, Shared(os)))[q]
  {
    hide RepeatedAliases, RepeatedProperties, Conflicts, AllPropertyProblems, Shared, Sort, Aliases, PropertyNames;
    var a := RepeatedAliases(Duplicates(Sort(Aliases(Properties(os)))));
    var b := RepeatedProperties(Duplicates(Sort(PropertyNames(Properties(os)))));
    var c := Conflicts(os, Shared(os));
    var d := AllPropertyProblems(schema, os.name, Properties(os), None);
    var e := KeyMissing(os);
    PropertiesSection(schema, os.name, Properties(os), None);
    assert q !in d && q !in e;
    assert q !in multiset(d) && q !in multiset(e);
    assert Problems(schema, os) == a + b + c + d + e;
  }

  lemma {:induction false} CountInAliases(names: seq<string>, q: Problem)
    ensures multiset(RepeatedAliases(names))[q] == if q.RepeatedAlias? then multiset(names)[q.alias] else 0
  {
    if q.RepeatedAlias? {
      MappedCounts(y => RepeatedAlias(y), names, q.alias);
    } else {
      MappedFrom(y => RepeatedAlias(y), names, q);
    }
  }

  lemma {:induction false} CountInNames(names: seq<string>, q: Problem)
    ensures multiset(RepeatedProperties(names))[q] == if q.RepeatedProperty? then multiset(names)[q.name] else 0
  {
    if q.RepeatedProperty? {
      MappedCounts(y => RepeatedProperty(y), names, q.name);
    } else {
      MappedFrom(y => RepeatedProperty(y), names, q);
    }
  }

  lemma {:induction false} CountInConflicts(os: ObjectSchema, names: seq<string>, p: Property, x: string)
    requires forall y | y in names :: PropertyForPublicName(os, y).Some?
    requires PropertyForPublicName(os, x) == Some(p)
    ensures multiset(Conflicts(os, names))[AliasIsName(p.name, x)] == multiset(names)[x]
  {
    MappedCounts(y requires PropertyForPublicName(os, y).Some? =>
                   AliasIsName(PropertyForPublicName(os, y).value.name, y), names, x);
  }

  lemma {:induction false} NotInConflicts(os: ObjectSchema, names: seq<string>, q: Problem)
    requires forall y | y in names :: PropertyForPublicName(os, y).Some?
    requires !q.AliasIsName?
    ensures multiset(Conflicts(os, names))[q] == 0
  {
    MappedFrom(y requires PropertyForPublicName(os, y).Some? =>
                 AliasIsName(PropertyForPublicName(os, y).value.name, y), names, q);
  }

  /** A property name given k times is reported k / 2 times. */
  lemma {:induction false} RepeatedNameHalves(schema: Schema, os: ObjectSchema, x: string)
    ensures multiset(Problems(schema, os))[RepeatedProperty(x)] == multiset(PropertyNames(Properties(os)))[x] / 2
  {
    ConflictsResolve(os);
    var q := RepeatedProperty(x);
    ProblemsCount(schema, os, q);
    SortSorts(PropertyNames(Properties(os)));
    DuplicatesHalve(Sort(PropertyNames(Properties(os))), x);
    CountInAliases(Duplicates(Sort(Aliases(Properties(os)))), q);
    CountInNames(Duplicates(Sort(PropertyNames(Properties(os)))), q);
    NotInConflicts(os, Shared(os), q);
  }

  /** So is an alias. */
  lemma {:induction false} RepeatedAliasHalves(schema: Schema, os: ObjectSchema, x: string)
    ensures multiset(Problems(schema, os))[RepeatedAlias(x)] == multiset(Aliases(Properties(os)))[x] / 2
  {
    ConflictsResolve(os);
    var q := RepeatedAlias(x);
    ProblemsCount(schema, os, q);
    SortSorts(Aliases(Properties(os)));
    DuplicatesHalve(Sort(Aliases(Properties(os))), x);
    CountInAliases(Duplicates(Sort(Aliases(Properties(os)))), q);
    CountInNames(Duplicates(Sort(PropertyNames(Properties(os)))), q);
    NotInConflicts(os, Shared(os), q);
  }

  lemma {:induction false} SharedCount(os: ObjectSchema)
    ensures multiset(Shared(os)) == multiset(Aliases(Properties(os))) * multiset(PropertyNames(Properties(os)))
  {
    SortSorts(Aliases(Properties(os)));
    SortSorts(PropertyNames(Properties(os)));
    CommonCounts(Sort(Aliases(Properties(os))), Sort(PropertyNames(Properties(os))));
  }

  /** An alias that is also a name is reported once for each pair of the two. */
  lemma {:induction false} ConflictCounts(schema: Schema, os: ObjectSchema, p: Property, x: string)
    requires PropertyForPublicName(os, x) == Some(p)
    ensures multiset(Problems(schema, os))[AliasIsName(p.name, x)] ==
            (multiset(Aliases(Properties(os))) * multiset(PropertyNames(Properties(os))))[x]
  {
    ConflictsResolve(os);
    var q := AliasIsName(p.name, x);
    ProblemsCount(schema, os, q);
    SharedCount(os);
    CountInAliases(Duplicates(Sort(Aliases(Properties(os)))), q);
    CountInNames(Duplicates(Sort(PropertyNames(Properties(os)))), q);
    CountInConflicts(os, Shared(os), p, x);
  }

  // ---------------------------------------------------------------- which problem of a type when

  /** The last of the first k properties to be marked as primary, if there is one. */
  ghost predicate IsLastPrimary(props: seq<Property>, k: nat, first: Option<Property>) {
    && k <= |props|
    && match first
       case None => forall i | 0 <= i < k :: !props[i].isPrimary
       case Some(p) =>
         exists i | 0 <= i < k :: props[i].isPrimary && props[i] == p && forall j | i < j < k :: !props[j].isPrimary
  }

  /** The problem comes from the property at position k. */
  ghost predicate CausedAt(schema: Schema, owner: string, props: seq<Property>, k: nat, first: Option<Property>, q: Problem) {
    k < |props| && IsLastPrimary(props, k, first) && Causes(schema, owner, props[k], first, q)
  }

  lemma {:induction false} LastPrimaryIs(props: seq<Property>, k: nat)
    requires k <= |props|
    ensures forall first :: IsLastPrimary(props, k, first) <==> first == PrimaryAfter(props[..k], None)
    decreases k
  {
    if k > 0 {
      LastPrimaryIs(props, k - 1);
      assert props[..k] == props[..k - 1] + [props[k - 1]];
      PrimaryAppend(props[..k - 1], [props[k - 1]], None);
      var before := PrimaryAfter(props[..k - 1], None);
      assert PrimaryAfter(props[..k], None) == if props[k - 1].isPrimary then Some(props[k - 1]) else before;
      forall first ensures IsLastPrimary(props, k, first) <==>
          first == if props[k - 1].isPrimary then Some(props[k - 1]) else before
      {
        LastPrimaryOneMore(props, k, first);
      }
    }
  }

  lemma {:induction false} LastPrimaryOneMore(props: seq<Property>, k: nat, first: Option<Property>)
    requires 0 < k <= |props|
    ensures IsLastPrimary(props, k, first) <==>
              if props[k - 1].isPrimary then first == Some(props[k - 1]) else IsLastPrimary(props, k - 1, first)
  {
  }

  /** The problems of the first n properties. */
  lemma {:induction false} CausedByOneOf(schema: Schema, owner: string, props: seq<Property>, n: nat, q: Problem)
    requires n <= |props|
    ensures q in AllPropertyProblems(schema, owner, props[..n], None) <==>
              exists k, first | 0 <= k < n :: CausedAt(schema, owner, props, k, first, q)
    decreases n
  {
    hide Causes, PropertyProblems, IsLastPrimary;
    if n > 0 {
      var front, p := props[..n - 1], props[n - 1];
      var last := PrimaryAfter(front, None);
      CausedByOneOf(schema, owner, props, n - 1, q);
      assert props[..n] == front + [p];
      ProblemsAppend(schema, owner, front, [p], None);
      OneProperty(schema, owner, p, last);
      EachProblemHasItsCause(schema, owner, p, last, q);
      LastPrimaryIs(props, n - 1);
      assert CausedAt(schema, owner, props, n - 1, last, q) <==> Causes(schema, owner, p, last, q);
    }
  }

  lemma {:induction false} OneProperty(schema: Schema, owner: string, p: Property, primary: Option<Property>)
    ensures AllPropertyProblems(schema, owner, [p], primary) == PropertyProblems(schema, owner, p, primary)
  {
    assert [p][1..] == [];
  }

  /** What each problem of a type comes from. */
  ghost predicate CausesInType(schema: Schema, os: ObjectSchema, q: Problem) {
    var props := Properties(os);
    match q
    case RepeatedType(_) => false
    case RepeatedAlias(x) => multiset(Aliases(props))[x] >= 2
    case RepeatedProperty(x) => multiset(PropertyNames(props))[x] >= 2
    case AliasIsName(n, x) =>
      && x in PropertyNames(props) && x in Aliases(props)
      && exists p :: PropertyForPublicName(os, x) == Some(p) && p.name == n
    case PrimaryKeyMissing(key) =>
      key == os.primaryKey && key != "" && forall p | p in props :: !p.isPrimary && p.name != key
    case _ => exists k, first :: CausedAt(schema, os.name, props, k, first, q)
  }

  lemma {:induction false} MappedMember(f: string --> Problem, names: seq<string>, q: Problem)
    requires forall y | y in names :: f.requires(y)
    ensures q in Mapped(f, names) <==> exists y | y in names :: f(y) == q
  {
    if names != [] {
      MappedMember(f, names[1..], q);
      assert forall y :: y in names <==> y == names[0] || y in names[1..];
    }
  }

  /** The problems of a type that have to do with names are about names only. */
  lemma {:induction false} NameProblemCauses(schema: Schema, os: ObjectSchema, q: Problem)
    requires forall x | x in Shared(os) :: PropertyForPublicName(os, x).Some?
    ensures q in NameProblems(os) <==> AboutNames(q) && CausesInType(schema, os, q)
  {
    hide Sort, Duplicates, Aliases, PropertyNames, Shared, Mapped;
    var aliases, names := Aliases(Properties(os)), PropertyNames(Properties(os));
    var a, b, c := Duplicates(Sort(aliases)), Duplicates(Sort(names)), Shared(os);
    MappedMember(x => RepeatedAlias(x), a, q);
    MappedMember(x => RepeatedProperty(x), b, q);
    MappedMember(x requires PropertyForPublicName(os, x).Some? =>
                   AliasIsName(PropertyForPublicName(os, x).value.name, x), c, q);
    match q
    case RepeatedAlias(x) => InDuplicates(aliases, x);
    case RepeatedProperty(x) => InDuplicates(names, x);
    case AliasIsName(n, x) => SharedMember(os, x);
    case _ =>
  }

  lemma {:induction false} InDuplicates(names: seq<string>, x: string)
    ensures x in Duplicates(Sort(names)) <==> multiset(names)[x] >= 2
  {
    SortSorts(names);
    DuplicatesHalve(Sort(names), x);
    assert x in Duplicates(Sort(names)) <==> x in multiset(Duplicates(Sort(names)));
  }

  /** Each problem is among those of a type exactly if its cause is there. */
  lemma {:induction false} EachProblemOfATypeHasItsCause(schema: Schema, os: ObjectSchema, q: Problem)
    ensures q in Problems(schema, os) <==> CausesInType(schema, os, q)
  {
    hide Causes, IsLastPrimary, NameProblems, AllPropertyProblems, KeyMissing;
    var props := Properties(os);
    ConflictsResolve(os);
    NameProblemCauses(schema, os, q);
    CausedByOneOf(schema, os.name, props, |props|, q);
    assert props[..|props|] == props;
    PropertiesSection(schema, os.name, props, None);
    KeyMissingCauses(os, q);
    if Place(q) == 13 { NotCausedByProperty(schema, os, q); }
  }

  lemma {:induction false} KeyMissingCauses(os: ObjectSchema, q: Problem)
    ensures q in KeyMissing(os) <==>
              q == PrimaryKeyMissing(os.primaryKey) && os.primaryKey != "" &&
              forall p | p in Properties(os) :: !p.isPrimary && p.name != os.primaryKey
  {
    PrimaryAfterIs(Properties(os), None);
    PropertyForNameFinds(os, os.primaryKey);
  }

  lemma {:induction false} NotCausedByProperty(schema: Schema, os: ObjectSchema, q: Problem)
    requires Place(q) == 13
    ensures forall k, first :: !CausedAt(schema, os.name, Properties(os), k, first, q)
  {
  }

  /** The part of the validation of a type that finds the problem. */
  ghost function Section(q: Problem): nat {
    match q
    case RepeatedAlias(_) => 0
    case RepeatedProperty(_) => 1
    case AliasIsName(_, _) => 2
    case PrimaryKeyMissing(_) => 4
    case _ => 3
  }

  ghost predicate AllOf(problems: seq<Problem>, section: nat) {
    forall q | q in problems :: Section(q) == section
  }

  lemma {:induction false} PropertiesSection(schema: Schema, owner: string, props: seq<Property>, primary: Option<Property>)
    ensures AllOf(AllPropertyProblems(schema, owner, props, primary), 3)
  {
    hide Causes, PropertyProblems;
    if props != [] {
      PropertiesSection(schema, owner, props[1..], if props[0].isPrimary then Some(props[0]) else primary);
      forall q | q in PropertyProblems(schema, owner, props[0], primary) ensures Section(q) == 3 {
        EachProblemHasItsCause(schema, owner, props[0], primary, q);
        CauseSection(schema, owner, props[0], primary, q);
      }
    }
  }

  lemma {:induction false} CauseSection(schema: Schema, owner: string, p: Property, first: Option<Property>, q: Problem)
    requires Causes(schema, owner, p, first, q)
    ensures Section(q) == 3
  {
  }

  lemma {:induction false} NameSections(os: ObjectSchema, a: seq<string>, b: seq<string>, c: seq<string>)
    requires forall x | x in c :: PropertyForPublicName(os, x).Some?
    ensures AllOf(RepeatedAliases(a), 0) && AllOf(RepeatedProperties(b), 1) && AllOf(Conflicts(os, c), 2)
  {
    forall q ensures (q in RepeatedAliases(a) ==> q.RepeatedAlias?) && (q in RepeatedProperties(b) ==> q.RepeatedProperty?)
                     && (q in Conflicts(os, c) ==> q.AliasIsName?)
    {
      MappedMember(x => RepeatedAlias(x), a, q);
      MappedMember(x => RepeatedProperty(x), b, q);
      MappedMember(x requires PropertyForPublicName(os, x).Some? =>
                     AliasIsName(PropertyForPublicName(os, x).value.name, x), c, q);
    }
  }

  ghost predicate SectionsInOrder(problems: seq<Problem>) {
    forall i, j | 0 <= i < j < |problems| :: Section(problems[i]) <= Section(problems[j])
  }

  lemma {:induction false} FiveSections(a: seq<Problem>, b: seq<Problem>, c: seq<Problem>, d: seq<Problem>, e: seq<Problem>)
    requires AllOf(a, 0) && AllOf(b, 1) && AllOf(c, 2) && AllOf(d, 3) && AllOf(e, 4)
    ensures SectionsInOrder(a + b + c + d + e)
  {
    hide Section;
    OneSectionMore(a, b, 0, 1);
    OneSectionMore(a + b, c, 1, 2);
    OneSectionMore(a + b + c, d, 2, 3);
    OneSectionMore(a + b + c + d, e, 3, 4);
  }

  lemma {:induction false} OneSectionMore(problems: seq<Problem>, more: seq<Problem>, n: nat, m: nat)
    requires SectionsInOrder(problems) && (forall q | q in problems :: Section(q) <= n) && AllOf(more, m) && n <= m
    ensures SectionsInOrder(problems + more) && (forall q | q in problems + more :: Section(q) <= m)
  {
    hide Section;
    var all := problems + more;
    forall i, j | 0 <= i < j < |all| ensures Section(all[i]) <= Section(all[j]) {
      if i < |problems| { assert all[i] in problems; }
      if j >= |problems| { assert all[j] in more; }
      if i >= |problems| { assert all[i] in more; }
    }
  }

  /** First come repeated aliases, then repeated names, conflicts, the properties' own, and the key. */
  lemma {:induction false} TypeProblemsInOrder(schema: Schema, os: ObjectSchema)
    ensures SectionsInOrder(Problems(schema, os))
  {
    hide Section, AllOf, SectionsInOrder, AllPropertyProblems;
    ConflictsResolve(os);
    var aliases, names := Duplicates(Sort(Aliases(Properties(os)))), Duplicates(Sort(PropertyNames(Properties(os))));
    NameSections(os, aliases, names, Shared(os));
    PropertiesSection(schema, os.name, Properties(os), None);
    KeySection(os);
    FiveSections(RepeatedAliases(aliases), RepeatedProperties(names), Conflicts(os, Shared(os)),
                 AllPropertyProblems(schema, os.name, Properties(os), None), KeyMissing(os));
  }

  lemma {:induction false} KeySection(os: ObjectSchema)
    ensures AllOf(KeyMissing(os), 4)
  {
  }

  lemma {:induction false} PropertyNamesAt(props: seq<Property>)
    ensures |PropertyNames(props)| == |props|
    ensures forall i | 0 <= i < |props| :: PropertyNames(props)[i] == props[i].name
  {
    if props != [] { PropertyNamesAt(props[1..]); }
  }

  // ---------------------------------------------------------------- the validating code

  lemma {:induction false} Reassociated<T>(a: seq<T>, b: seq<T>, c: seq<T>)
    ensures (a + b) + c == a + (b + c)
  {
  }

  lemma {:induction false} NamesAppend(a: seq<Property>, b: seq<Property>)
    ensures PropertyNames(a + b) == PropertyNames(a) + PropertyNames(b)
  {
    if a == [] {
      assert a + b == b;
    } else {
      NamesAppend(a[1..], b);
      assert (a + b)[1..] == a[1..] + b;
    }
  }

  ghost function AliasOf(p: Property): seq<string> {
    if p.publicName == "" then [] else [p.publicName]
  }

  lemma {:induction false} AliasesUnfold(props: seq<Property>)
    requires props != []
    ensures Aliases(props) == AliasOf(props[0]) + Aliases(props[1..])
  {
  }

  lemma {:induction false} AliasesAppend(a: seq<Property>, b: seq<Property>)
    ensures Aliases(a + b) == Aliases(a) + Aliases(b)
  {
    if a == [] {
      assert a + b == b;
    } else {
      AliasesAppend(a[1..], b);
      assert (a + b)[0] == a[0] && (a + b)[1..] == a[1..] + b;
      AliasesUnfold(a + b);
      AliasesUnfold(a);
      Reassociated(AliasOf(a[0]), Aliases(a[1..]), Aliases(b));
    }
  }

  lemma {:induction false} PrimaryAppend(a: seq<Property>, b: seq<Property>, primary: Option<Property>)
    ensures PrimaryAfter(a + b, primary) == PrimaryAfter(b, PrimaryAfter(a, primary))
  {
    if a == [] {
      assert a + b == b;
    } else {
      PrimaryAppend(a[1..], b, if a[0].isPrimary then Some(a[0]) else primary);
      assert (a + b)[1..] == a[1..] + b;
    }
  }

  lemma {:induction false} ProblemsAppend(schema: Schema, owner: string, a: seq<Property>, b: seq<Property>,
                                          primary: Option<Property>)
    ensures AllPropertyProblems(schema, owner, a + b, primary) ==
            AllPropertyProblems(schema, owner, a, primary) +
            AllPropertyProblems(schema, owner, b, PrimaryAfter(a, primary))
  {
    if a == [] {
      assert a + b == b;
    } else {
      var next := if a[0].isPrimary then Some(a[0]) else primary;
      ProblemsAppend(schema, owner, a[1..], b, next);
      AppendOne(schema, owner, a, b, primary, AllPropertyProblems(schema, owner, a[1..], next),
                AllPropertyProblems(schema, owner, b, PrimaryAfter(a, primary)));
    }
  }

  lemma {:induction false} AppendOne(schema: Schema, owner: string, a: seq<Property>, b: seq<Property>,
                                     primary: Option<Property>, ofRest: seq<Problem>, ofB: seq<Problem>)
    requires a != []
    requires var next := if a[0].isPrimary then Some(a[0]) else primary;
             && AllPropertyProblems(schema, owner, a[1..], next) == ofRest
             && AllPropertyProblems(schema, owner, a[1..] + b, next) == ofRest + ofB
    ensures AllPropertyProblems(schema, owner, a + b, primary) == AllPropertyProblems(schema, owner, a, primary) + ofB
  {
    hide AllPropertyProblems, PropertyProblems;
    assert (a + b)[0] == a[0] && (a + b)[1..] == a[1..] + b;
    ProblemsUnfold(schema, owner, a + b, primary);
    ProblemsUnfold(schema, owner, a, primary);
    Reassociated(PropertyProblems(schema, owner, a[0], primary), ofRest, ofB);
  }

  lemma {:induction false} ProblemsUnfold(schema: Schema, owner: string, props: seq<Property>, primary: Option<Property>)
    requires props != []
    ensures AllPropertyProblems(schema, owner, props, primary) ==
            PropertyProblems(schema, owner, props[0], primary) +
            AllPropertyProblems(schema, owner, props[1..], if props[0].isPrimary then Some(props[0]) else primary)
  {
    hide PropertyProblems;
  }

  method GatherNames(props: seq<Property>, aliases: seq<string>, names: seq<string>)
    returns (aliasesNow: seq<string>, namesNow: seq<string>)
    ensures aliasesNow == aliases + Aliases(props)
    ensures namesNow == names + PropertyNames(props)
  {
    aliasesNow, namesNow := aliases, names;
    var i := 0;
    assert props[0..] == props;
    while i < |props|
      invariant i <= |props|
      invariant aliasesNow + Aliases(props[i..]) == aliases + Aliases(props)
      invariant namesNow + PropertyNames(props[i..]) == names + PropertyNames(props)
    {
      assert props[i..][1..] == props[i + 1..];
      namesNow := namesNow + [props[i].name];
      if props[i].publicName != "" {
        aliasesNow := aliasesNow + [props[i].publicName];
      }
      i := i + 1;
    }
  }

  method ValidateProperties(schema: Schema, owner: string, props: seq<Property>, primary: Option<Property>,
                            exceptions: seq<Problem>)
    returns (primaryNow: Option<Property>, exceptionsNow: seq<Problem>)
    ensures primaryNow == PrimaryAfter(props, primary)
    ensures exceptionsNow == exceptions + AllPropertyProblems(schema, owner, props, primary)
  {
    primaryNow, exceptionsNow := primary, exceptions;
    var i := 0;
    assert props[0..] == props;
    while i < |props|
      invariant i <= |props|
      invariant PrimaryAfter(props[i..], primaryNow) == PrimaryAfter(props, primary)
      invariant exceptionsNow + AllPropertyProblems(schema, owner, props[i..], primaryNow) ==
                exceptions + AllPropertyProblems(schema, owner, props, primary)
    {
      assert props[i..][1..] == props[i + 1..];
      ghost var next := if props[i].isPrimary then Some(props[i]) else primaryNow;
      Reassociated(exceptionsNow, PropertyProblems(schema, owner, props[i], primaryNow),
                   AllPropertyProblems(schema, owner, props[i + 1..], next));
      primaryNow, exceptionsNow := ValidateProperty(schema, owner, props[i], primaryNow, exceptionsNow);
      i := i + 1;
    }
  }

  /** The checks that names and aliases are unique and do not clash. */
  method ValidateNames(os: ObjectSchema, exceptions: seq<Problem>) returns (exceptionsNow: seq<Problem>)
    requires forall x | x in Shared(os) :: PropertyForPublicName(os, x).Some?
    ensures exceptionsNow == exceptions + NameProblems(os)
  {
    var aliases, names := GatherNames(os.persisted, [], []);
    aliases, names := GatherNames(os.computed, aliases, names);
    NamesAppend(os.persisted, os.computed);
    AliasesAppend(os.persisted, os.computed);
    assert aliases == Aliases(Properties(os)) && names == PropertyNames(Properties(os));
    aliases, names := Sort(aliases), Sort(names);
    var repeatedAliases := ReportDuplicates(aliases);
    var repeatedNames := ReportDuplicates(names);
    var shared := Intersect(aliases, names);
    exceptionsNow := exceptions + RepeatedAliases(repeatedAliases);
    exceptionsNow := exceptionsNow + RepeatedProperties(repeatedNames);
    exceptionsNow := exceptionsNow + Conflicts(os, shared);
    Reassociated(exceptions, RepeatedAliases(repeatedAliases), RepeatedProperties(repeatedNames));
    Reassociated(exceptions, RepeatedAliases(repeatedAliases) + RepeatedProperties(repeatedNames), Conflicts(os, shared));
  }

  /** Validation of one type: appends its problems to those found before. */
  method Validate(schema: Schema, os: ObjectSchema, exceptions: seq<Problem>) returns (exceptionsNow: seq<Problem>)
    ensures exceptionsNow == exceptions + Problems(schema, os)
    ensures exceptionsNow == exceptions <==> WellFormed(schema, os)
    ensures forall q :: q in exceptionsNow[|exceptions|..] <==> CausesInType(schema, os, q)
  {
    hide CausesInType;
    forall q ensures q in Problems(schema, os) <==> CausesInType(schema, os, q) {
      EachProblemOfATypeHasItsCause(schema, os, q);
    }
    ConflictsResolve(os);
    var found := ValidateNames(os, exceptions);
    ghost var a := NameProblems(os);
    var primary: Option<Property>;
    primary, found := ValidateProperties(schema, os.name, os.persisted, None, found);
    primary, found := ValidateProperties(schema, os.name, os.computed, primary, found);
    ghost var b := AllPropertyProblems(schema, os.name, Properties(os), None);
    ProblemsAppend(schema, os.name, os.persisted, os.computed, None);
    PrimaryAppend(os.persisted, os.computed, None);
    Reassociated(exceptions + a, AllPropertyProblems(schema, os.name, os.persisted, None),
                 AllPropertyProblems(schema, os.name, os.computed, PrimaryAfter(os.persisted, None)));
    Reassociated(exceptions, a, b);
    Reassociated(exceptions, a + b, KeyMissing(os));
    if os.primaryKey != "" && primary.None? && PropertyForName(os, os.primaryKey).None? {
      found := found + [PrimaryKeyMissing(os.primaryKey)];
    }
    SilentIffWellFormed(schema, os);
    return found;
  }

  // ---------------------------------------------------------------- the whole schema

  ghost function TypeNames(schema: Schema): seq<string> {
    if schema == [] then [] else [schema[0].name] + TypeNames(schema[1..])
  }

  ghost function RepeatedTypes(schema: Schema): seq<Problem> {
    if |schema| < 2 then []
    else if schema[0].name == schema[1].name then [RepeatedType(schema[0].name)] + RepeatedTypes(schema[1..])
    else RepeatedTypes(schema[1..])
  }

  lemma {:induction false} TypeNamesAt(schema: Schema)
    ensures |TypeNames(schema)| == |schema|
    ensures forall i | 0 <= i < |schema| :: TypeNames(schema)[i] == schema[i].name
  {
    if schema != [] { TypeNamesAt(schema[1..]); }
  }

  ghost function OneLess(k: nat): nat {
    if k == 0 then 0 else k - 1
  }

  lemma {:induction false} RepeatedTypeStep(schema: Schema, x: string)
    requires InNameOrder(schema) && |schema| >= 2
    requires multiset(RepeatedTypes(schema[1..]))[RepeatedType(x)] == OneLess(multiset(TypeNames(schema[1..]))[x])
    ensures multiset(RepeatedTypes(schema))[RepeatedType(x)] == OneLess(multiset(TypeNames(schema))[x])
  {
    hide Less;
    var names, later := TypeNames(schema), TypeNames(schema[1..]);
    TypeNamesAt(schema);
    assert names == [names[0]] + later;
    if schema[0].name == schema[1].name {
      assert names[0] == later[0];
      assert names[0] in multiset(later);
    } else {
      HeadIsSingle(names);
      assert names[0] !in multiset(later);
    }
  }

  /** A type given k times, unlike a property, is reported k - 1 times. */
  lemma {:induction false} RepeatedTypeCounts(schema: Schema, x: string)
    requires InNameOrder(schema)
    ensures multiset(RepeatedTypes(schema))[RepeatedType(x)] == OneLess(multiset(TypeNames(schema))[x])
  {
    if |schema| >= 2 {
      RepeatedTypeCounts(schema[1..], x);
      RepeatedTypeStep(schema, x);
    } else if |schema| == 1 {
      assert TypeNames(schema) == [schema[0].name];
    }
  }

  ghost function SchemaProblems(schema: Schema, types: seq<ObjectSchema>): seq<Problem> {
    if types == [] then [] else Problems(schema, types[0]) + SchemaProblems(schema, types[1..])
  }

  lemma {:induction false} NoSchemaProblems(schema: Schema, types: seq<ObjectSchema>)
    ensures SchemaProblems(schema, types) == [] <==> forall os | os in types :: WellFormed(schema, os)
  {
    if types != [] {
      SilentIffWellFormed(schema, types[0]);
      NoSchemaProblems(schema, types[1..]);
      assert forall os :: os in types <==> os == types[0] || os in types[1..];
    }
  }

  lemma {:induction false} NoRepeatedTypes(schema: Schema)
    requires InNameOrder(schema)
    ensures RepeatedTypes(schema) == [] <==> AllDistinct(TypeNames(schema))
  {
    forall x ensures multiset(RepeatedTypes(schema))[RepeatedType(x)] == OneLess(multiset(TypeNames(schema))[x]) {
      RepeatedTypeCounts(schema, x);
    }
    OnlyRepeatedTypes(schema);
    if RepeatedTypes(schema) != [] {
      var q := RepeatedTypes(schema)[0];
      assert q in multiset(RepeatedTypes(schema)) && q == RepeatedType(q.ty);
      assert multiset(TypeNames(schema))[q.ty] > 1;
    }
  }

  lemma {:induction false} OnlyRepeatedTypes(schema: Schema)
    ensures forall q | q in RepeatedTypes(schema) :: q.RepeatedType?
  {
    if |schema| >= 2 { OnlyRepeatedTypes(schema[1..]); }
  }

  /** A schema passes exactly if its type names differ and every type is well formed. */
  ghost predicate Sound(schema: Schema) {
    AllDistinct(TypeNames(schema)) && forall os | os in schema :: WellFormed(schema, os)
  }

  method FindNextDuplicate(schema: Schema, from: nat) returns (k: nat)
    requires from <= |schema|
    ensures from <= k <= |schema|
    ensures k < |schema| ==> k + 1 < |schema| && schema[k].name == schema[k + 1].name
    ensures RepeatedTypes(schema[from..]) == RepeatedTypes(schema[k..])
  {
    k := from;
    while k < |schema|
      invariant from <= k <= |schema|
      invariant RepeatedTypes(schema[from..]) == RepeatedTypes(schema[k..])
    {
      if k + 1 < |schema| && schema[k].name == schema[k + 1].name { return; }
      assert schema[k..][1..] == schema[k + 1..];
      k := k + 1;
    }
  }

  method ReportRepeatedTypes(schema: Schema) returns (exceptions: seq<Problem>)
    ensures exceptions == RepeatedTypes(schema)
  {
    exceptions := [];
    var it := FindNextDuplicate(schema, 0);
    assert schema[0..] == schema;
    while it != |schema|
      invariant it <= |schema|
      invariant it < |schema| ==> it + 1 < |schema| && schema[it].name == schema[it + 1].name
      invariant exceptions + RepeatedTypes(schema[it..]) == RepeatedTypes(schema)
      decreases |schema| - it
    {
      assert schema[it..][1..] == schema[it + 1..];
      Reassociated(exceptions, [RepeatedType(schema[it].name)], RepeatedTypes(schema[it + 1..]));
      exceptions := exceptions + [RepeatedType(schema[it].name)];
      it := FindNextDuplicate(schema, it + 1);
    }
  }

  lemma {:induction false} OneTypeMore(schema: Schema, i: nat)
    requires i < |schema|
    ensures SchemaProblems(schema, schema[i..]) == Problems(schema, schema[i]) + SchemaProblems(schema, schema[i + 1..])
  {
    assert schema[i..][1..] == schema[i + 1..];
  }

  method ValidateTypes(schema: Schema, exceptions: seq<Problem>) returns (exceptionsNow: seq<Problem>)
    ensures exceptionsNow == exceptions + SchemaProblems(schema, schema)
  {
    exceptionsNow := exceptions;
    var i := 0;
    ghost var total := exceptions + SchemaProblems(schema, schema);
    assert schema[0..] == schema;
    while i < |schema|
      invariant i <= |schema|
      invariant exceptionsNow + SchemaProblems(schema, schema[i..]) == total
    {
      ghost var found, rest := exceptionsNow, SchemaProblems(schema, schema[i + 1..]);
      ghost var more := Problems(schema, schema[i]);
      OneTypeMore(schema, i);
      exceptionsNow := Validate(schema, schema[i], exceptionsNow);
      Reassociated(found, more, rest);
      i := i + 1;
    }
  }

  /** Validation of the schema; the original throws what is found here, if anything. */
  method ValidateSchema(schema: Schema) returns (exceptions: seq<Problem>)
    requires InNameOrder(schema)
    ensures exceptions == RepeatedTypes(schema) + SchemaProblems(schema, schema)
    ensures exceptions == [] <==> Sound(schema)
  {
    exceptions := ReportRepeatedTypes(schema);
    exceptions := ValidateTypes(schema, exceptions);
    NoRepeatedTypes(schema);
    NoSchemaProblems(schema, schema);
  }
}
