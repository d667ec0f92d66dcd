/** Object types, their properties, and the lookups made in them. */
module Schemas {
  import opened Names
  import opened Options

  datatype BaseType = Int | Bool | String | Data | Date | Float | Double | Object | LinkingObjects | Any

  /** A property's type with its two flags; types are compared without the flags. */
  datatype PropertyType = PropertyType(base: BaseType, isNullable: bool, isArray: bool)

  datatype Property = Property(
    name: string, publicName: string, ty: PropertyType, objectType: string, origin: string,
    isPrimary: bool, isIndexed: bool, column: nat)

  datatype ObjectSchema = ObjectSchema(
    name: string, persisted: seq<Property>, computed: seq<Property>, primaryKey: string)

  /** The object types in ascending order of their names. */
  type Schema = seq<ObjectSchema>

  ghost predicate InNameOrder(schema: Schema) {
    forall i, j | 0 <= i < j < |schema| :: !Less(schema[j].name, schema[i].name)
  }

  // ---------------------------------------------------------------- finding a type

  /** The first type whose name is not below the given one. */
  function LowerBound(schema: Schema, name: string): (i: nat)
    ensures i <= |schema|
  {
    if schema == [] || !Less(schema[0].name, name) then 0 else 1 + LowerBound(schema[1..], name)
  }

  lemma {:induction false} LowerBoundIs(schema: Schema, name: string)
    ensures var i := LowerBound(schema, name);
            && (forall k | 0 <= k < i :: Less(schema[k].name, name))
            && (i < |schema| ==> !Less(schema[i].name, name))
  {
    if schema != [] && Less(schema[0].name, name) {
      LowerBoundIs(schema[1..], name);
      forall k | 0 <= k < LowerBound(schema, name) ensures Less(schema[k].name, name) {
        assert k > 0 ==> schema[k] == schema[1..][k - 1];
      }
    }
  }

  function Find(schema: Schema, name: string): Option<nat> {
    var i := LowerBound(schema, name);
    if i == |schema| || schema[i].name != name then None else Some(i)
  }

  /** In a schema kept in name order the search finds the first type of that name, if there is one. */
  lemma {:induction false} FindIsFirst(schema: Schema, name: string)
    requires InNameOrder(schema)
    ensures Find(schema, name).None? <==> forall k | 0 <= k < |schema| :: schema[k].name != name
    ensures forall i: nat | i < |schema| :: Find(schema, name) == Some(i) <==>
              schema[i].name == name && forall k | 0 <= k < i :: schema[k].name != name
  {
    var i := LowerBound(schema, name);
    LowerBoundIs(schema, name);
    LessIrreflexive(name);
    forall k | i < k < |schema| && schema[k].name == name ensures schema[i].name == name {
      LessTotal(schema[i].name, name);
      assert !Less(schema[k].name, schema[i].name);
    }
  }

  // ---------------------------------------------------------------- finding a property

  predicate IsCalled(p: Property, name: string) {
    p.name == name
  }

  /** The test for persisted properties, which the empty name passes wherever no public name is set. */
  predicate IsCalledPublicly(p: Property, name: string) {
    p.publicName == name || (p.publicName == "" && p.name == name)
  }

  /** The public name, which is the name where none is set.  Computed properties are tested by it. */
  function PublicNameOf(p: Property): string {
    if p.publicName == "" then p.name else p.publicName
  }

  /** The two tests differ on the empty name only. */
  lemma {:induction false} CalledPubliclyIff(p: Property, name: string)
    ensures PublicNameOf(p) == name ==> IsCalledPublicly(p, name)
    ensures IsCalledPublicly(p, name) && PublicNameOf(p) != name <==> name == "" && p.publicName == "" && p.name != ""
  {
  }

  /** The first of the properties with the given name. */
  function FirstCalled(props: seq<Property>, name: string): Option<Property> {
    if props == [] then None
    else if IsCalled(props[0], name) then Some(props[0])
    else FirstCalled(props[1..], name)
  }

  function FirstCalledPublicly(props: seq<Property>, name: string): Option<Property> {
    if props == [] then None
    else if IsCalledPublicly(props[0], name) then Some(props[0])
    else FirstCalledPublicly(props[1..], name)
  }

  function FirstOfPublicName(props: seq<Property>, name: string): Option<Property> {
    if props == [] then None
    else if PublicNameOf(props[0]) == name then Some(props[0])
    else FirstOfPublicName(props[1..], name)
  }

  function Properties(os: ObjectSchema): seq<Property> {
    os.persisted + os.computed
  }

  /** Persisted properties are searched before computed ones. */
  function PropertyForName(os: ObjectSchema, name: string): Option<Property> {
    var p := FirstCalled(os.persisted, name);
    if p.Some? then p else FirstCalled(os.computed, name)
  }

  function PropertyForPublicName(os: ObjectSchema, name: string): Option<Property> {
    var p := FirstCalledPublicly(os.persisted, name);
    if p.Some? then p else FirstOfPublicName(os.computed, name)
  }

  lemma {:induction false} FirstCalledFinds(props: seq<Property>, name: string)
    ensures FirstCalled(props, name).None? <==> forall p | p in props :: p.name != name
    ensures FirstCalled(props, name).Some? ==>
              FirstCalled(props, name).value in props && FirstCalled(props, name).value.name == name
  {
    if props != [] {
      FirstCalledFinds(props[1..], name);
      assert forall p :: p in props <==> p == props[0] || p in props[1..];
    }
  }

  lemma {:induction false} FirstCalledPubliclyFinds(props: seq<Property>, name: string)
    ensures FirstCalledPublicly(props, name).None? <==> forall p | p in props :: !IsCalledPublicly(p, name)
    ensures FirstCalledPublicly(props, name).Some? ==>
              FirstCalledPublicly(props, name).value in props &&
              IsCalledPublicly(FirstCalledPublicly(props, name).value, name)
  {
    if props != [] {
      FirstCalledPubliclyFinds(props[1..], name);
      assert forall p :: p in props <==> p == props[0] || p in props[1..];
    }
  }

  lemma {:induction false} FirstOfPublicNameFinds(props: seq<Property>, name: string)
    ensures FirstOfPublicName(props, name).None? <==> forall p | p in props :: PublicNameOf(p) != name
    ensures FirstOfPublicName(props, name).Some? ==>
              FirstOfPublicName(props, name).value in props && PublicNameOf(FirstOfPublicName(props, name).value) == name
  {
    if props != [] {
      FirstOfPublicNameFinds(props[1..], name);
      assert forall p :: p in props <==> p == props[0] || p in props[1..];
    }
  }

  /** The search finds a property of the name if there is one, and a persisted one if there is one. */
  lemma {:induction false} PropertyForNameFinds(os: ObjectSchema, name: string)
    ensures var r := PropertyForName(os, name);
            && (r.None? <==> forall p | p in Properties(os) :: p.name != name)
            && (r.Some? ==> r.value in Properties(os) && r.value.name == name)
            && (r.Some? && (exists p | p in os.persisted :: p.name == name) ==> r.value in os.persisted)
  {
    FirstCalledFinds(os.persisted, name);
    FirstCalledFinds(os.computed, name);
    assert forall p :: p in Properties(os) <==> p in os.persisted || p in os.computed;
  }

  lemma {:induction false} FirstCalledAppend(a: seq<Property>, b: seq<Property>, name: string)
    ensures FirstCalled(a + b, name) ==
            if FirstCalled(a, name).Some? then FirstCalled(a, name) else FirstCalled(b, name)
  {
    if a == [] {
      assert a + b == b;
    } else {
      FirstCalledAppend(a[1..], b, name);
      assert (a + b)[0] == a[0] && (a + b)[1..] == a[1..] + b;
    }
  }

  lemma {:induction false} FirstCalledPlace(props: seq<Property>, name: string, k: nat)
    requires k < |props| && props[k].name == name && forall i | 0 <= i < k :: props[i].name != name
    ensures FirstCalled(props, name) == Some(props[k])
  {
    if k > 0 {
      assert forall i | 0 <= i < |props[1..]| :: props[1..][i] == props[i + 1];
      FirstCalledPlace(props[1..], name, k - 1);
    }
  }

  /** The search finds the first property of the name in search order. */
  lemma {:induction false} NameSearchOrder(os: ObjectSchema, name: string, k: nat)
    requires k < |Properties(os)| && Properties(os)[k].name == name
    requires forall i | 0 <= i < k :: Properties(os)[i].name != name
    ensures PropertyForName(os, name) == Some(Properties(os)[k])
  {
    FirstCalledAppend(os.persisted, os.computed, name);
    FirstCalledPlace(Properties(os), name, k);
  }

  /** The same for the public name, with the test that goes with each kind of property. */
  lemma {:induction false} PropertyForPublicNameFinds(os: ObjectSchema, name: string)
    ensures var r := PropertyForPublicName(os, name);
            && (r.None? <==> (forall p | p in os.persisted :: !IsCalledPublicly(p, name)) &&
                             (forall p | p in os.computed :: PublicNameOf(p) != name))
            && (r.Some? && (exists p | p in os.persisted :: IsCalledPublicly(p, name)) ==>
                  r.value in os.persisted && IsCalledPublicly(r.value, name))
            && (r.Some? && (forall p | p in os.persisted :: !IsCalledPublicly(p, name)) ==>
                  r.value in os.computed && PublicNameOf(r.value) == name)
  {
    FirstCalledPubliclyFinds(os.persisted, name);
    FirstOfPublicNameFinds(os.computed, name);
  }

  /** What a search for a public name, other than the empty one, goes by: the first property in search
      order with that public name. */
  ghost predicate IsFirstOfPublicName(props: seq<Property>, name: string, k: nat) {
    && k < |props| && PublicNameOf(props[k]) == name
    && forall i | 0 <= i < k :: PublicNameOf(props[i]) != name
  }

  lemma {:induction false} FirstPlaces(props: seq<Property>, name: string)
    ensures name != "" ==> FirstCalledPublicly(props, name) == FirstOfPublicName(props, name)
    ensures forall k: nat | IsFirstOfPublicName(props, name, k) :: FirstOfPublicName(props, name) == Some(props[k])
  {
    if props != [] {
      CalledPubliclyIff(props[0], name);
      FirstPlaces(props[1..], name);
      forall k: nat | IsFirstOfPublicName(props, name, k) ensures FirstOfPublicName(props, name) == Some(props[k]) {
        if k > 0 {
          assert IsFirstOfPublicName(props[1..], name, k - 1) by {
            assert forall i | 0 <= i < |props[1..]| :: props[1..][i] == props[i + 1];
          }
        }
      }
    }
  }

  lemma {:induction false} FirstOfPublicNameAppend(a: seq<Property>, b: seq<Property>, name: string)
    ensures FirstOfPublicName(a + b, name) ==
            if FirstOfPublicName(a, name).Some? then FirstOfPublicName(a, name) else FirstOfPublicName(b, name)
  {
    if a == [] {
      assert a + b == b;
    } else {
      FirstOfPublicNameAppend(a[1..], b, name);
      assert (a + b)[0] == a[0] && (a + b)[1..] == a[1..] + b;
    }
  }

  lemma {:induction false} PublicSearchOrder(os: ObjectSchema, name: string, k: nat)
    requires name != "" && IsFirstOfPublicName(Properties(os), name, k)
    ensures PropertyForPublicName(os, name) == Some(Properties(os)[k])
  {
    FirstPlaces(os.persisted, name);
    FirstOfPublicNameAppend(os.persisted, os.computed, name);
    FirstPlaces(Properties(os), name);
  }

  // ---------------------------------------------------------------- what a type allows

  predicate IsIndexable(ty: PropertyType) {
    ty.base in {Int, Bool, Date, String}
  }

  predicate IsNullable(ty: PropertyType) {
    !(ty.isArray && ty.base.Object?) && !ty.base.LinkingObjects?
  }
}
