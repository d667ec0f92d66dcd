/** Parsing of the key paths results are sorted and made distinct by. */
module KeyPaths {
  import opened Names
  import opened Options
  import opened Schemas
  import opened SchemaValidation

  datatype Failure =
    | MissingName
    | NoSuchProperty(owner: string, name: string)
    | Unsupported(owner: string, name: string)
    | EndsOnLink(owner: string, name: string)
    | GoesOnAfterValue(owner: string, name: string)

  datatype Parsed = Columns(columns: seq<nat>) | Rejected(failure: Failure)

  // ---------------------------------------------------------------- the path as text

  /** The first separator, or the length. */
  function Separator(path: string): (k: nat)
    ensures k <= |path|
    ensures forall i | 0 <= i < k :: path[i] != '.'
    ensures k < |path| ==> path[k] == '.'
  {
    if path == "" || path[0] == '.' then 0 else 1 + Separator(path[1..])
  }

  ghost function Split(path: string): (segments: seq<string>)
    ensures segments != []
    decreases |path|
  {
    var k := Separator(path);
    if k == |path| then [path] else [path[..k]] + Split(path[k + 1..])
  }

  ghost function Join(segments: seq<string>): string
    requires segments != []
  {
    if |segments| == 1 then segments[0] else segments[0] + "." + Join(segments[1..])
  }

  ghost predicate Undotted(segments: seq<string>) {
    forall i, j | 0 <= i < |segments| && 0 <= j < |segments[i]| :: segments[i][j] != '.'
  }

  lemma {:induction false} JoinOfSplit(path: string)
    ensures Join(Split(path)) == path && Undotted(Split(path))
    decreases |path|
  {
    var k := Separator(path);
    if k < |path| {
      JoinOfSplit(path[k + 1..]);
      assert path == path[..k] + "." + path[k + 1..];
      assert Split(path)[1..] == Split(path[k + 1..]);
    }
  }

  lemma {:induction false} SplitOfJoin(segments: seq<string>)
    requires segments != [] && Undotted(segments)
    ensures Split(Join(segments)) == segments
  {
    var path := Join(segments);
    if |segments| == 1 {
      assert forall j | 0 <= j < |path| :: path[j] != '.';
      assert segments == [path];
    } else {
      assert Undotted(segments[1..]);
      SplitOfJoin(segments[1..]);
      var k := |segments[0]|;
      assert path[k] == '.' && forall j | 0 <= j < k :: path[j] == segments[0][j];
      assert Separator(path) == k;
      assert path[..k] == segments[0] && path[k + 1..] == Join(segments[1..]);
      assert segments == [segments[0]] + segments[1..];
    }
  }

  // ---------------------------------------------------------------- the path as a chain of links

  predicate IsSortable(ty: PropertyType) {
    !ty.isArray && ty.base != LinkingObjects && ty.base != Data
  }

  /** The properties a path goes through, each a property of the type the one before links to: single
      links up to the last, which is a single value other than binary data. */
  ghost predicate IsChain(schema: Schema, segments: seq<string>, owners: seq<ObjectSchema>, props: seq<Property>) {
    && |owners| == |props| == |segments| > 0
    && (forall k | 0 <= k < |segments| :: segments[k] != "" && PropertyForName(owners[k], segments[k]) == Some(props[k]))
    && (forall k | 0 <= k < |segments| - 1 ::
          props[k].ty.base.Object? && !props[k].ty.isArray && Target(schema, props[k]) == Some(owners[k + 1]))
    && var last := props[|props| - 1].ty;
       !last.isArray && !last.base.LinkingObjects? && !last.base.Data? && !last.base.Object?
  }

  ghost function ColumnsOf(props: seq<Property>): seq<nat> {
    if props == [] then [] else [props[0].column] + ColumnsOf(props[1..])
  }

  /** The complaint about the first segment, if it is at fault. */
  ghost function FirstFault(os: ObjectSchema, segments: seq<string>): Option<Failure>
    requires segments != []
  {
    if segments[0] == "" || (|segments| == 2 && segments[1] == "") then Some(MissingName)
    else
      match PropertyForName(os, segments[0])
      case None => Some(NoSuchProperty(os.name, segments[0]))
      case Some(p) =>
        if !IsSortable(p.ty) then Some(Unsupported(os.name, segments[0]))
        else if p.ty.base.Object? && |segments| == 1 then Some(EndsOnLink(os.name, segments[0]))
        else if !p.ty.base.Object? && |segments| > 1 then Some(GoesOnAfterValue(os.name, segments[0]))
        else None
  }

  /** A link found by its name in a type of the schema leads to a type of the schema. */
  ghost predicate LinksResolve(schema: Schema) {
    forall os, name | os in schema && PropertyForName(os, name).Some? ::
      PropertyForName(os, name).value.ty.base.Object? ==> Target(schema, PropertyForName(os, name).value).Some?
  }

  lemma {:induction false} SoundLinksResolve(schema: Schema)
    requires Sound(schema)
    ensures LinksResolve(schema)
  {
    forall os, name | os in schema && PropertyForName(os, name).Some?
      ensures PropertyForName(os, name).value.ty.base.Object? ==> Target(schema, PropertyForName(os, name).value).Some?
    {
      PropertyForNameFinds(os, name);
      assert WellFormed(schema, os);
      assert Legal(schema, os.name, PropertyForName(os, name).value);
    }
  }

  ghost function Preceded(columns: seq<nat>, later: Parsed): Parsed {
    if later.Rejected? then later else Columns(columns + later.columns)
  }

  lemma {:induction false} PrecededTwice(a: seq<nat>, b: seq<nat>, later: Parsed)
    ensures Preceded(a + b, later) == Preceded(a, Preceded(b, later))
  {
    if later.Columns? {
      assert a + b + later.columns == a + (b + later.columns);
    }
  }

  /** What parsing answers: the columns along the path, or the first fault on it. */
  ghost function Meaning(schema: Schema, os: ObjectSchema, segments: seq<string>): Parsed
    requires LinksResolve(schema) && os in schema && segments != []
    decreases |segments|
  {
    match FirstFault(os, segments)
    case Some(failure) => Rejected(failure)
    case None =>
      var p := PropertyForName(os, segments[0]).value;
      if !p.ty.base.Object? then Columns([p.column])
      else
        Preceded([p.column], Meaning(schema, Target(schema, p).value, segments[1..]))
  }

  ghost predicate ChainHead(schema: Schema, segment: string, owner: ObjectSchema, p: Property, next: ObjectSchema) {
    && segment != "" && PropertyForName(owner, segment) == Some(p)
    && p.ty.base.Object? && !p.ty.isArray && Target(schema, p) == Some(next)
  }

  lemma {:induction false} ChainTail(schema: Schema, segments: seq<string>, owners: seq<ObjectSchema>, props: seq<Property>)
    requires IsChain(schema, segments, owners, props) && |segments| > 1
    ensures ChainHead(schema, segments[0], owners[0], props[0], owners[1])
    ensures IsChain(schema, segments[1..], owners[1..], props[1..])
  {
  }

  lemma {:induction false} ChainCons(schema: Schema, segments: seq<string>, owners: seq<ObjectSchema>, props: seq<Property>)
    requires |owners| == |props| == |segments| > 1
    requires ChainHead(schema, segments[0], owners[0], props[0], owners[1])
    requires IsChain(schema, segments[1..], owners[1..], props[1..])
    ensures IsChain(schema, segments, owners, props)
  {
    forall k | 0 <= k < |segments|
      ensures segments[k] != "" && PropertyForName(owners[k], segments[k]) == Some(props[k])
    {
      assert k > 0 ==> segments[1..][k - 1] == segments[k] && owners[1..][k - 1] == owners[k] &&
                       props[1..][k - 1] == props[k];
    }
    forall k | 0 <= k < |segments| - 1
      ensures props[k].ty.base.Object? && !props[k].ty.isArray && Target(schema, props[k]) == Some(owners[k + 1])
    {
      assert k > 0 ==> owners[1..][k] == owners[k + 1] && props[1..][k - 1] == props[k];
    }
  }

  /** A path is accepted exactly if it is a chain of links ending in a value. */
  lemma {:induction false} ChainIsAccepted(schema: Schema, segments: seq<string>, owners: seq<ObjectSchema>, props: seq<Property>)
    requires LinksResolve(schema) && IsChain(schema, segments, owners, props) && owners[0] in schema
    ensures Meaning(schema, owners[0], segments) == Columns(ColumnsOf(props))
    decreases |segments|
  {
    if |segments| == 1 {
      assert PropertyForName(owners[0], segments[0]) == Some(props[0]);
      assert ColumnsOf(props) == [props[0].column];
    } else {
      ChainTail(schema, segments, owners, props);
      assert segments[1..][0] != "";
      ChainIsAccepted(schema, segments[1..], owners[1..], props[1..]);
    }
  }

  lemma {:induction false} AcceptedIsChain(schema: Schema, os: ObjectSchema, segments: seq<string>)
    returns (owners: seq<ObjectSchema>, props: seq<Property>)
    requires LinksResolve(schema) && os in schema && segments != []
    requires Meaning(schema, os, segments).Columns?
    ensures IsChain(schema, segments, owners, props) && owners[0] == os
    ensures Meaning(schema, os, segments) == Columns(ColumnsOf(props))
    decreases |segments|
  {
    var p := PropertyForName(os, segments[0]).value;
    owners, props := [os], [p];
    if p.ty.base.Object? {
      var next := Target(schema, p).value;
      var laterOwners, laterProps := AcceptedIsChain(schema, next, segments[1..]);
      owners, props := owners + laterOwners, props + laterProps;
      assert owners[1..] == laterOwners && props[1..] == laterProps;
      assert ChainHead(schema, segments[0], owners[0], props[0], owners[1]);
      ChainCons(schema, segments, owners, props);
    }
  }

  // ---------------------------------------------------------------- which failure when

  /** The segment names a single link of os that leads to next. */
  ghost predicate LeadsTo(schema: Schema, segment: string, os: ObjectSchema, next: ObjectSchema) {
    && segment != "" && PropertyForName(os, segment).Some?
    && var p := PropertyForName(os, segment).value;
       p.ty.base.Object? && !p.ty.isArray && Target(schema, p) == Some(next)
  }

  /** The segments before segment k go through single links, which lead from each owner to the next. */
  ghost predicate LinksUpTo(schema: Schema, segments: seq<string>, owners: seq<ObjectSchema>, k: nat) {
    && k < |segments| && |owners| == k + 1
    && forall i | 0 <= i < k :: LeadsTo(schema, segments[i], owners[i], owners[i + 1])
  }

  /** Segment k has a name, and it is not followed by a last one without. */
  ghost predicate Named(segments: seq<string>, k: nat)
    requires k < |segments|
  {
    segments[k] != "" && !(k + 2 == |segments| && segments[k + 1] == "")
  }

  /** What each failure at segment k, a property of os, comes from. */
  ghost predicate FailsAt(os: ObjectSchema, segments: seq<string>, k: nat, f: Failure)
    requires k < |segments|
  {
    var found := PropertyForName(os, segments[k]);
    match f
    case MissingName => !Named(segments, k)
    case NoSuchProperty(o, n) =>
      Named(segments, k) && o == os.name && n == segments[k] && forall p | p in Properties(os) :: p.name != n
    case Unsupported(o, n) =>
      && Named(segments, k) && o == os.name && n == segments[k] && found.Some?
      && (found.value.ty.isArray || found.value.ty.base.LinkingObjects? || found.value.ty.base.Data?)
    case EndsOnLink(o, n) =>
      && Named(segments, k) && o == os.name && n == segments[k] && found.Some?
      && !found.value.ty.isArray && found.value.ty.base.Object? && k + 1 == |segments|
    case GoesOnAfterValue(o, n) =>
      && Named(segments, k) && o == os.name && n == segments[k] && found.Some?
      && !found.value.ty.isArray && !found.value.ty.base.LinkingObjects? && !found.value.ty.base.Data?
      && !found.value.ty.base.Object? && k + 1 < |segments|
  }

  lemma {:induction false} FirstFaultIs(os: ObjectSchema, segments: seq<string>, f: Failure)
    requires segments != []
    ensures FirstFault(os, segments) == Some(f) <==> FailsAt(os, segments, 0, f)
  {
    PropertyForNameFinds(os, segments[0]);
  }

  lemma {:induction false} FailsLater(os: ObjectSchema, segments: seq<string>, k: nat, f: Failure)
    requires 0 < k < |segments|
    ensures FailsAt(os, segments, k, f) <==> FailsAt(os, segments[1..], k - 1, f)
  {
    assert segments[1..][k - 1] == segments[k];
    assert k + 1 < |segments| ==> segments[1..][k] == segments[k + 1];
  }

  lemma {:induction false} LinksTail(schema: Schema, segments: seq<string>, owners: seq<ObjectSchema>, k: nat)
    requires LinksUpTo(schema, segments, owners, k) && k > 0
    ensures LeadsTo(schema, segments[0], owners[0], owners[1])
    ensures LinksUpTo(schema, segments[1..], owners[1..], k - 1)
  {
    hide LeadsTo;
    forall i | 0 <= i < k - 1 ensures LeadsTo(schema, segments[1..][i], owners[1..][i], owners[1..][i + 1]) {
      assert LeadsTo(schema, segments[i + 1], owners[i + 1], owners[i + 2]);
    }
  }

  lemma {:induction false} LinksCons(schema: Schema, segments: seq<string>, os: ObjectSchema, later: seq<ObjectSchema>, j: nat)
    requires segments != [] && LinksUpTo(schema, segments[1..], later, j) && LeadsTo(schema, segments[0], os, later[0])
    ensures LinksUpTo(schema, segments, [os] + later, j + 1)
  {
    hide LeadsTo;
    var owners := [os] + later;
    forall i | 0 <= i < j + 1 ensures LeadsTo(schema, segments[i], owners[i], owners[i + 1]) {
      if i > 0 { assert LeadsTo(schema, segments[1..][i - 1], later[i - 1], later[i]); }
    }
  }

  /** Where single links lead to a segment at fault, that fault is the answer. */
  lemma {:induction false} FailureIsReported(schema: Schema, segments: seq<string>, owners: seq<ObjectSchema>, k: nat, f: Failure)
    requires LinksResolve(schema) && LinksUpTo(schema, segments, owners, k) && owners[0] in schema
    requires FailsAt(owners[k], segments, k, f)
    ensures Meaning(schema, owners[0], segments) == Rejected(f)
    decreases |segments|
  {
    if k == 0 {
      FirstFaultIs(owners[0], segments, f);
    } else {
      LinksTail(schema, segments, owners, k);
      FailsLater(owners[k], segments, k, f);
      FailureIsReported(schema, segments[1..], owners[1..], k - 1, f);
    }
  }

  /** And whatever is refused is refused for such a fault. */
  lemma {:induction false} FailureHasItsCause(schema: Schema, os: ObjectSchema, segments: seq<string>)
    returns (owners: seq<ObjectSchema>, k: nat)
    requires LinksResolve(schema) && os in schema && segments != []
    requires Meaning(schema, os, segments).Rejected?
    ensures LinksUpTo(schema, segments, owners, k) && owners[0] == os
    ensures FailsAt(owners[k], segments, k, Meaning(schema, os, segments).failure)
    decreases |segments|
  {
    if FirstFault(os, segments).Some? {
      owners, k := [os], 0;
      FirstFaultIs(os, segments, FirstFault(os, segments).value);
    } else {
      var p := PropertyForName(os, segments[0]).value;
      var later, j := FailureHasItsCause(schema, Target(schema, p).value, segments[1..]);
      owners, k := [os] + later, j + 1;
      FailsLater(later[j], segments, k, Meaning(schema, os, segments).failure);
      LinksCons(schema, segments, os, later, j);
    }
  }

  lemma {:induction false} ColumnsOfLength(props: seq<Property>)
    ensures |ColumnsOf(props)| == |props|
    ensures forall k | 0 <= k < |props| :: ColumnsOf(props)[k] == props[k].column
  {
    if props != [] { ColumnsOfLength(props[1..]); }
  }

  /** An accepted path yields one column for each of its segments. */
  lemma {:induction false} OneColumnEach(schema: Schema, os: ObjectSchema, path: string)
    requires LinksResolve(schema) && os in schema
    requires Meaning(schema, os, Split(path)).Columns?
    ensures |Meaning(schema, os, Split(path)).columns| == |Split(path)|
  {
    var owners, props := AcceptedIsChain(schema, os, Split(path));
    ColumnsOfLength(props);
  }

  // ---------------------------------------------------------------- the parser

  lemma {:induction false} EmptyRest(path: string)
    ensures path == "" <==> Split(path) == [""]
  {
    JoinOfSplit(path);
    assert Join([""]) == "";
  }

  lemma {:induction false} SplitStep(path: string)
    requires path != ""
    ensures var k := Separator(path); var segments := Split(path);
            && segments[0] == path[..k]
            && (|segments| == 1 <==> k == |path|)
            && (k < |path| ==> segments[1..] == Split(path[k + 1..]))
            && (k + 1 < |path| ==> !(|segments| == 2 && segments[1] == ""))
            && (k + 1 == |path| ==> |segments| == 2 && segments[1] == "")
  {
    var k := Separator(path);
    if k < |path| {
      var later := Split(path[k + 1..]);
      EmptyRest(path[k + 1..]);
      assert Split(path) == [path[..k]] + later;
      assert Split(path)[1..] == later;
    }
  }

  /** The loop over the segments.  No link leads to a type the schema lacks, so each step has a type to go on with. */
  method ParseKeyPath(path: string, schema: Schema, start: ObjectSchema) returns (r: Parsed)
    requires LinksResolve(schema) && start in schema
    ensures r == Meaning(schema, start, Split(path))
  {
    if path == "" { return Rejected(MissingName); }
    var columns: seq<nat> := [];
    var os, rest := start, path;
    ghost var total := Meaning(schema, start, Split(path));
    while rest != ""
      invariant os in schema
      invariant total == if rest == "" then Columns(columns) else Preceded(columns, Meaning(schema, os, Split(rest)))
      decreases |rest|
    {
      var sep := Separator(rest);
      if sep == 0 || sep + 1 == |rest| { return Rejected(MissingName); }
      var key := rest[..sep];
      var after := if sep == |rest| then "" else rest[sep + 1..];
      ghost var segments := Split(rest);
      SplitStep(rest);
      var prop := PropertyForName(os, key);
      if prop.None? { return Rejected(NoSuchProperty(os.name, key)); }
      if !IsSortable(prop.value.ty) { return Rejected(Unsupported(os.name, key)); }
      if prop.value.ty.base == Object {
        if after == "" { return Rejected(EndsOnLink(os.name, key)); }
      } else {
        if after != "" { return Rejected(GoesOnAfterValue(os.name, key)); }
      }
      assert FirstFault(os, segments).None?;
      if prop.value.ty.base == Object {
        var next := schema[Find(schema, prop.value.objectType).value];
        PrecededTwice(columns, [prop.value.column], Meaning(schema, next, Split(after)));
        os := next;
      }
      columns := columns + [prop.value.column];
      rest := after;
    }
    return Columns(columns);
  }
}
