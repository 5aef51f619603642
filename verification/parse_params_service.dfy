/**
 The work-package payload parser. A request body is decoded by a representer
 whose custom-field properties depend on the work package's project and type;
 since the payload may itself change the project or type, the body is decoded
 once with the caller's defaults and, when the custom fields selected by the
 decoded `project_id`/`type_id` differ, a second time with those fields.

 The collaborators the service cannot see (the payload representer, the
 available-custom-fields query and the `find_by` lookups) are function values
 carried by `Service`; each call to them is recorded as an `Effect`, so the
 number and order of decodes and lookups is part of every result.
 */
module ParseParamsService {
  import opened Wrappers
  import opened RubyHash

  const ProjectIdKey: Key := "project_id"
  const TypeIdKey: Key := "type_id"
  const LockVersionKey: Key := "lock_version"
  /** The representer's own bookkeeping attribute, which must not leak out. */
  const AvailableCustomFieldsKey: Key := "available_custom_fields"

  /**
   A parser bound to the user it was created for, together with its
   collaborators:
   - `decode(user, body, fields)`: a payload representer built for `fields`
     reads `body` and returns its attribute hash (`from_hash(...).to_h`), or
     raises;
   - `availableFields(project, type)`: the custom fields available for a
     work package of that project and type, in order;
   - `findProject(id)` / `findType(id)`: the record with that id, or `None`
     for an unknown id.
   */
  datatype Service<!U, !P, !T, !F, E> = Service(
    currentUser: U,
    decode: (U, Value, seq<F>) -> Result<Hash, E>,
    availableFields: (Option<P>, Option<T>) -> seq<F>,
    findProject: Value -> Option<P>,
    findType: Value -> Option<T>)

  /** One call from the parser into a collaborator. */
  datatype Effect<P, T, F> =
    | ProjectLookup(projectId: Value)
    | TypeLookup(typeId: Value)
    | FieldsLookup(project: Option<P>, workPackageType: Option<T>)
    | Decoding(body: Value, fields: seq<F>)

  /** A computed value together with the collaborator calls that produced it. */
  datatype Run<A, P, T, F> = Run(value: A, effects: seq<Effect<P, T, F>>)

  function Last<X>(s: seq<X>): X
    requires |s| > 0
  {
    s[|s| - 1]
  }

  /** The decode effects among `effects`, in order. */
  function Decodings<P, T, F>(effects: seq<Effect<P, T, F>>): (r: seq<Effect<P, T, F>>)
    ensures |r| <= |effects|
    ensures forall i :: 0 <= i < |r| ==> r[i].Decoding?
    ensures (forall i :: 0 <= i < |effects| ==> !effects[i].Decoding?) ==> r == []
  {
    if effects == [] then []
    else (if effects[0].Decoding? then [effects[0]] else []) + Decodings(effects[1..])
  }

  /**
   The custom fields for a work package whose project and type are the given
   defaults, unless `hash` carries a truthy `project_id` or `type_id`: such an
   id replaces the corresponding default by a lookup (an unknown id gives
   `None`). `nil`, `false` or a missing key keep the default.
   */
  function CustomFieldsFor<U, P, T, F, E>(
    s: Service<U, P, T, F, E>, project: Option<P>, workPackageType: Option<T>, hash: Hash)
    : (r: Run<seq<F>, P, T, F>)
    ensures |r.effects| > 0 && Last(r.effects).FieldsLookup?
    ensures r.value == s.availableFields(Last(r.effects).project, Last(r.effects).workPackageType)
    ensures Truthy(Get(hash, ProjectIdKey)) ==>
      Last(r.effects).project == s.findProject(hash[ProjectIdKey])
      && ProjectLookup(hash[ProjectIdKey]) in r.effects
    ensures !Truthy(Get(hash, ProjectIdKey)) ==>
      Last(r.effects).project == project
      && forall i :: 0 <= i < |r.effects| ==> !r.effects[i].ProjectLookup?
    ensures Truthy(Get(hash, TypeIdKey)) ==>
      Last(r.effects).workPackageType == s.findType(hash[TypeIdKey])
      && TypeLookup(hash[TypeIdKey]) in r.effects
    ensures !Truthy(Get(hash, TypeIdKey)) ==>
      Last(r.effects).workPackageType == workPackageType
      && forall i :: 0 <= i < |r.effects| ==> !r.effects[i].TypeLookup?
    ensures forall i :: 0 <= i < |r.effects| ==> !r.effects[i].Decoding?
    ensures forall i :: 0 <= i < |r.effects| - 1 ==> !r.effects[i].FieldsLookup?
    ensures |r.effects| == 1 + (if Truthy(Get(hash, ProjectIdKey)) then 1 else 0)
                             + (if Truthy(Get(hash, TypeIdKey)) then 1 else 0)
  {
    var projectId := Get(hash, ProjectIdKey);
    var typeId := Get(hash, TypeIdKey);
    var project' := if Truthy(projectId) then s.findProject(projectId) else project;
    var type' := if Truthy(typeId) then s.findType(typeId) else workPackageType;
    var lookups := (if Truthy(projectId) then [ProjectLookup(projectId)] else [])
                   + (if Truthy(typeId) then [TypeLookup(typeId)] else []);
    Run(s.availableFields(project', type'), lookups + [FieldsLookup(project', type')])
  }

  /**
   The clean-up applied to every representer output: the bookkeeping key
   `available_custom_fields` is dropped and `lock_version` is guaranteed,
   defaulting to `nil` without overwriting a decoded value.
   */
  function Normalize(raw: Hash): (h: Hash)
    ensures AvailableCustomFieldsKey !in h
    ensures LockVersionKey in h
    ensures h[LockVersionKey] == Get(raw, LockVersionKey)
    ensures forall k :: k != AvailableCustomFieldsKey && k != LockVersionKey ==>
      (k in h <==> k in raw)
    ensures forall k :: k in h && k != LockVersionKey ==> h[k] == raw[k]
  {
    ReverseMerge(Except(raw, AvailableCustomFieldsKey), map[LockVersionKey := Nil])
  }

  /**
   One decode of `body` by a representer that knows `fields`, followed by
   `Normalize`. An error raised by the representer is passed on unchanged.
   */
  function ParseAttributesWithRepresenter<U, P, T, F, E>(
    s: Service<U, P, T, F, E>, body: Value, fields: seq<F>)
    : (r: Run<Result<Hash, E>, P, T, F>)
    ensures r.effects == [Decoding(body, fields)]
    ensures s.decode(s.currentUser, body, fields).Failure? <==> r.value.Failure?
    ensures r.value.Failure? ==> r.value.error == s.decode(s.currentUser, body, fields).error
    ensures r.value.Success? ==>
      var raw := s.decode(s.currentUser, body, fields).value;
      && AvailableCustomFieldsKey !in r.value.value
      && LockVersionKey in r.value.value
      && r.value.value[LockVersionKey] == Get(raw, LockVersionKey)
      && (forall k :: k != AvailableCustomFieldsKey && k != LockVersionKey ==>
           (k in r.value.value <==> k in raw))
      && (forall k :: k in r.value.value && k != LockVersionKey ==> r.value.value[k] == raw[k])
  {
    var decoded := match s.decode(s.currentUser, body, fields)
      case Success(raw) => Success(Normalize(raw))
      case Failure(e) => Failure(e);
    Run(decoded, [Decoding(body, fields)])
  }

  /** The two-pass parse of a present request body. */
  function ParseAttributes<U, P, T, F(==), E>(
    s: Service<U, P, T, F, E>, body: Value, project: Option<P>, workPackageType: Option<T>)
    : (r: Run<Result<Hash, E>, P, T, F>)
    ensures |r.effects| >= 2
    ensures r.effects[0] == FieldsLookup(project, workPackageType)
    ensures r.effects[1] == Decoding(body, s.availableFields(project, workPackageType))
    ensures r.value.Success? ==>
      LockVersionKey in r.value.value && AvailableCustomFieldsKey !in r.value.value
  {
    var initial := CustomFieldsFor(s, project, workPackageType, map[]);
    var pass1 := ParseAttributesWithRepresenter(s, body, initial.value);
    match pass1.value
    case Failure(_) => Run(pass1.value, initial.effects + pass1.effects)
    case Success(hash) =>
      var recomputed := CustomFieldsFor(s, project, workPackageType, hash);
      if initial.value != recomputed.value then
        var pass2 := ParseAttributesWithRepresenter(s, body, recomputed.value);
        Run(pass2.value, initial.effects + pass1.effects + recomputed.effects + pass2.effects)
      else
        Run(pass1.value, initial.effects + pass1.effects + recomputed.effects)
  }

  /**
   The service's entry point: a `nil` (or `false`) request body gives the
   empty hash without calling any collaborator; any other body is parsed in
   two passes.
   */
  function Call<U, P, T, F(==), E>(
    s: Service<U, P, T, F, E>, requestBody: Value, project: Option<P>, workPackageType: Option<T>)
    : (r: Run<Result<Hash, E>, P, T, F>)
    ensures !Truthy(requestBody) ==> r.value == Success(map[]) && r.effects == []
    ensures Truthy(requestBody) ==> |r.effects| > 0
    ensures r.value.Success? && Truthy(requestBody) ==>
      LockVersionKey in r.value.value && AvailableCustomFieldsKey !in r.value.value
  {
    if !Truthy(requestBody) then Run(Success(map[]), [])
    else ParseAttributes(s, requestBody, project, workPackageType)
  }
}
