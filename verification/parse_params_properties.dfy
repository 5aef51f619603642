/**
 What the two-pass parser promises its callers, stated over `Call` for all
 services, bodies and defaults.
 */
module ParseParamsProperties {
  import opened Wrappers
  import opened RubyHash
  import opened ParseParamsService

  /** The custom fields pass 1 decodes with: those of the caller's defaults. */
  function InitialFields<U, P, T, F, E>(
    s: Service<U, P, T, F, E>, project: Option<P>, workPackageType: Option<T>): seq<F>
  {
    s.availableFields(project, workPackageType)
  }

  /** The outcome of pass 1: the request body decoded with the initial fields. */
  function FirstPass<U, P, T, F, E>(
    s: Service<U, P, T, F, E>, body: Value, project: Option<P>, workPackageType: Option<T>)
    : Result<Hash, E>
  {
    ParseAttributesWithRepresenter(s, body, InitialFields(s, project, workPackageType)).value
  }

  /** The custom fields selected once the pass-1 hash may override the defaults. */
  function RecomputedFields<U, P, T, F, E>(
    s: Service<U, P, T, F, E>, project: Option<P>, workPackageType: Option<T>, hash: Hash): seq<F>
  {
    CustomFieldsFor(s, project, workPackageType, hash).value
  }

  lemma {:induction false} DecodingsAppend<P, T, F>(a: seq<Effect<P, T, F>>, b: seq<Effect<P, T, F>>)
    ensures Decodings(a + b) == Decodings(a) + Decodings(b)
    decreases |a|
  {
    if a == [] {
      assert a + b == b;
    } else {
      assert (a + b)[0] == a[0];
      assert (a + b)[1..] == a[1..] + b;
      DecodingsAppend(a[1..], b);
      var head := if a[0].Decoding? then [a[0]] else [];
      assert Decodings(a + b) == head + Decodings(a[1..] + b);
    }
  }

  /** The decodes in a trace of lookups, a decode, lookups and possibly a second decode. */
  lemma DecodingsOfPasses<P, T, F>(
    a: seq<Effect<P, T, F>>, x: Effect<P, T, F>, c: seq<Effect<P, T, F>>, y: Effect<P, T, F>)
    requires Decodings(a) == [] && Decodings(c) == []
    requires x.Decoding? && y.Decoding?
    ensures Decodings(a + [x]) == [x]
    ensures Decodings(a + [x] + c) == [x]
    ensures Decodings(a + [x] + c + [y]) == [x, y]
  {
    assert Decodings([x]) == [x] by {
      assert [x][1..] == [];
    }
    assert Decodings([y]) == [y] by {
      assert [y][1..] == [];
    }
    DecodingsAppend(a, [x]);
    DecodingsAppend(a + [x], c);
    DecodingsAppend(a + [x] + c, [y]);
  }

  lemma CustomFieldsForDecodesNothing<U, P, T, F, E>(
    s: Service<U, P, T, F, E>, project: Option<P>, workPackageType: Option<T>, hash: Hash)
    ensures Decodings(CustomFieldsFor(s, project, workPackageType, hash).effects) == []
  {
  }

  /** Pass 1 looks up neither a project nor a type: it resolves the defaults' fields, then decodes. */
  lemma FirstPassUsesDefaults<U, P, T, F, E>(
    s: Service<U, P, T, F, E>, body: Value, project: Option<P>, workPackageType: Option<T>)
    requires Truthy(body)
    ensures var r := Call(s, body, project, workPackageType);
      && |r.effects| >= 2
      && r.effects[0] == FieldsLookup(project, workPackageType)
      && r.effects[1] == Decoding(body, s.availableFields(project, workPackageType))
  {
    var initial := CustomFieldsFor(s, project, workPackageType, map[]);
    assert Get(map[], ProjectIdKey) == Nil && Get(map[], TypeIdKey) == Nil;
    assert initial.effects == [FieldsLookup(project, workPackageType)];
  }

  /** A raised pass-1 decode error ends the parse: no recomputation and no second decode. */
  lemma FirstPassFailurePropagates<U, P, T, F, E>(
    s: Service<U, P, T, F, E>, body: Value, project: Option<P>, workPackageType: Option<T>)
    requires Truthy(body)
    requires FirstPass(s, body, project, workPackageType).Failure?
    ensures var r := Call(s, body, project, workPackageType);
      && r.value == FirstPass(s, body, project, workPackageType)
      && |r.effects| == 2
      && Decodings(r.effects) == [Decoding(body, InitialFields(s, project, workPackageType))]
  {
    FirstPassUsesDefaults(s, body, project, workPackageType);
    var r := Call(s, body, project, workPackageType);
    var d := Decoding(body, InitialFields(s, project, workPackageType));
    assert r.effects == [FieldsLookup(project, workPackageType)] + [d];
    DecodingsAppend([FieldsLookup(project, workPackageType)], [d]);
  }

  /**
   When the pass-1 hash selects the same custom fields (as a sequence, order
   included), the pass-1 hash is the result and the body is decoded once.
   */
  lemma UnchangedFieldsDecodeOnce<U, P, T, F, E>(
    s: Service<U, P, T, F, E>, body: Value, project: Option<P>, workPackageType: Option<T>)
    requires Truthy(body)
    requires FirstPass(s, body, project, workPackageType).Success?
    requires RecomputedFields(s, project, workPackageType, FirstPass(s, body, project, workPackageType).value)
             == InitialFields(s, project, workPackageType)
    ensures var r := Call(s, body, project, workPackageType);
      && r.value == FirstPass(s, body, project, workPackageType)
      && Decodings(r.effects) == [Decoding(body, InitialFields(s, project, workPackageType))]
  {
    var initial := CustomFieldsFor(s, project, workPackageType, map[]);
    var pass1 := ParseAttributesWithRepresenter(s, body, initial.value);
    var recomputed := CustomFieldsFor(s, project, workPackageType, pass1.value.value);
    var d0 := Decoding(body, initial.value);
    assert Call(s, body, project, workPackageType)
           == Run(pass1.value, initial.effects + [d0] + recomputed.effects);
    CustomFieldsForDecodesNothing(s, project, workPackageType, map[]);
    CustomFieldsForDecodesNothing(s, project, workPackageType, pass1.value.value);
    DecodingsOfPasses(initial.effects, d0, recomputed.effects, d0);
  }


  /**
   When the pass-1 hash selects different custom fields, the ORIGINAL request
   body is decoded again with them and that second decode is the result.
   */
  lemma ChangedFieldsDecodeTwice<U, P, T, F, E>(
    s: Service<U, P, T, F, E>, body: Value, project: Option<P>, workPackageType: Option<T>)
    requires Truthy(body)
    requires FirstPass(s, body, project, workPackageType).Success?
    requires RecomputedFields(s, project, workPackageType, FirstPass(s, body, project, workPackageType).value)
             != InitialFields(s, project, workPackageType)
    ensures var newFields :=
        RecomputedFields(s, project, workPackageType, FirstPass(s, body, project, workPackageType).value);
      var r := Call(s, body, project, workPackageType);
      && r.value == ParseAttributesWithRepresenter(s, body, newFields).value
      && Decodings(r.effects)
         == [Decoding(body, InitialFields(s, project, workPackageType)), Decoding(body, newFields)]
  {
    var initial := CustomFieldsFor(s, project, workPackageType, map[]);
    var pass1 := ParseAttributesWithRepresenter(s, body, initial.value);
    var recomputed := CustomFieldsFor(s, project, workPackageType, pass1.value.value);
    var pass2 := ParseAttributesWithRepresenter(s, body, recomputed.value);
    var d0 := Decoding(body, initial.value);
    var d1 := Decoding(body, recomputed.value);
    assert Call(s, body, project, workPackageType)
           == Run(pass2.value, initial.effects + [d0] + recomputed.effects + [d1]);
    CustomFieldsForDecodesNothing(s, project, workPackageType, map[]);
    CustomFieldsForDecodesNothing(s, project, workPackageType, pass1.value.value);
    DecodingsOfPasses(initial.effects, d0, recomputed.effects, d1);
  }


  /**
   A service whose decoder always reports `type_id` 7, and for which the
   default context has the fields `[1, 2]` while type 7 has the same fields
   in the order `[2, 1]`.
   */
  function ReorderingService(): Service<int, int, int, int, int>
  {
    Service(
      0,
      (user: int, body: Value, fields: seq<int>) => Success(map[TypeIdKey := Int(7)]),
      (project: Option<int>, workPackageType: Option<int>) =>
        if workPackageType == Some(7) then [2, 1] else [1, 2],
      (id: Value) => None,
      (id: Value) => if id.Int? then Some(id.i) else None)
  }

  /**
   The comparison is order-sensitive: the recomputed list holds the same
   fields as the initial one, in another order, and the body is still decoded
   a second time.
   */
  lemma ReorderedFieldsDecodeTwice()
    ensures var s := ReorderingService();
      var h0 := FirstPass(s, Dict(map[]), None, None);
      && InitialFields(s, None, None) == [1, 2]
      && h0.Success?
      && RecomputedFields(s, None, None, h0.value) == [2, 1]
      && multiset(RecomputedFields(s, None, None, h0.value)) == multiset(InitialFields(s, None, None))
      && Decodings(Call(s, Dict(map[]), None, None).effects)
         == [Decoding(Dict(map[]), [1, 2]), Decoding(Dict(map[]), [2, 1])]
  {
    var s := ReorderingService();
    var h0 := FirstPass(s, Dict(map[]), None, None);
    assert Get(h0.value, TypeIdKey) == Int(7);
    assert RecomputedFields(s, None, None, h0.value) == [2, 1];
    assert multiset([2, 1]) == multiset([1, 2]);
    ChangedFieldsDecodeTwice(s, Dict(map[]), None, None);
  }

  /**
   The typical request: the pass-1 hash carries no truthy `project_id` or
   `type_id`, so the defaults stand, the body is decoded once and the pass-1
   hash is the result.
   */
  lemma TypicalRequestDecodesOnce<U, P, T, F, E>(
    s: Service<U, P, T, F, E>, body: Value, project: Option<P>, workPackageType: Option<T>)
    requires Truthy(body)
    requires FirstPass(s, body, project, workPackageType).Success?
    requires !Truthy(Get(FirstPass(s, body, project, workPackageType).value, ProjectIdKey))
    requires !Truthy(Get(FirstPass(s, body, project, workPackageType).value, TypeIdKey))
    ensures var r := Call(s, body, project, workPackageType);
      && r.value == FirstPass(s, body, project, workPackageType)
      && Decodings(r.effects) == [Decoding(body, InitialFields(s, project, workPackageType))]
  {
    UnchangedFieldsDecodeOnce(s, body, project, workPackageType);
  }

  /** Every call decodes at most twice, and every decode reads the original request body. */
  lemma AtMostTwoDecodes<U, P, T, F, E>(
    s: Service<U, P, T, F, E>, body: Value, project: Option<P>, workPackageType: Option<T>)
    ensures var ds := Decodings(Call(s, body, project, workPackageType).effects);
      && |ds| <= 2
      && forall i :: 0 <= i < |ds| ==> ds[i].body == body
  {
    if !Truthy(body) {
    } else if FirstPass(s, body, project, workPackageType).Failure? {
      FirstPassFailurePropagates(s, body, project, workPackageType);
    } else if RecomputedFields(s, project, workPackageType, FirstPass(s, body, project, workPackageType).value)
              == InitialFields(s, project, workPackageType) {
      UnchangedFieldsDecodeOnce(s, body, project, workPackageType);
    } else {
      ChangedFieldsDecodeTwice(s, body, project, workPackageType);
    }
  }

  /**
   Nothing else changes: a successful result is exactly the normalized output
   of the last decode performed, i.e. the decoder's entries without
   `available_custom_fields`, plus `lock_version` (the decoder's value if it
   produced one, `nil` otherwise).
   */
  lemma ResultIsLastDecodeNormalized<U, P, T, F, E>(
    s: Service<U, P, T, F, E>, body: Value, project: Option<P>, workPackageType: Option<T>)
    requires Truthy(body)
    ensures var r := Call(s, body, project, workPackageType);
      var ds := Decodings(r.effects);
      r.value.Success? ==>
        && |ds| > 0
        && var raw := s.decode(s.currentUser, Last(ds).body, Last(ds).fields);
        && raw.Success?
        && r.value.value == Normalize(raw.value)
  {
    if FirstPass(s, body, project, workPackageType).Failure? {
    } else if RecomputedFields(s, project, workPackageType, FirstPass(s, body, project, workPackageType).value)
       == InitialFields(s, project, workPackageType) {
      UnchangedFieldsDecodeOnce(s, body, project, workPackageType);
    } else {
      ChangedFieldsDecodeTwice(s, body, project, workPackageType);
    }
  }

  /** Normalizing keeps the entries that select the project and the type. */
  lemma NormalizeKeepsContextIds(raw: Hash)
    ensures Get(Normalize(raw), ProjectIdKey) == Get(raw, ProjectIdKey)
    ensures Get(Normalize(raw), TypeIdKey) == Get(raw, TypeIdKey)
  {
  }

  /**
   The decoder reads `project_id` and `type_id` from `body` the same way
   whatever custom fields it is built with (they are not custom fields).
   */
  ghost predicate ContextIdsIndependentOfFields<U, P, T, F(!new), E>(s: Service<U, P, T, F, E>, body: Value)
  {
    forall f1, f2 ::
      s.decode(s.currentUser, body, f1).Success? && s.decode(s.currentUser, body, f2).Success? ==>
        && Get(s.decode(s.currentUser, body, f1).value, ProjectIdKey)
           == Get(s.decode(s.currentUser, body, f2).value, ProjectIdKey)
        && Get(s.decode(s.currentUser, body, f1).value, TypeIdKey)
           == Get(s.decode(s.currentUser, body, f2).value, TypeIdKey)
  }

  /**
   The result reflects the final project and type: when the decoder reads the
   ids independently of the custom fields, the fields the returned hash was
   decoded with are exactly those its own `project_id`/`type_id` select.
   */
  lemma ResultFieldsAreFinal<U, P, T, F(!new), E>(
    s: Service<U, P, T, F, E>, body: Value, project: Option<P>, workPackageType: Option<T>)
    requires Truthy(body)
    requires ContextIdsIndependentOfFields(s, body)
    ensures var r := Call(s, body, project, workPackageType);
      var ds := Decodings(r.effects);
      r.value.Success? ==>
        && |ds| > 0
        && RecomputedFields(s, project, workPackageType, r.value.value) == Last(ds).fields
  {
    if FirstPass(s, body, project, workPackageType).Failure? {
      return;
    }
    var f0 := InitialFields(s, project, workPackageType);
    var h0 := FirstPass(s, body, project, workPackageType).value;
    var f1 := RecomputedFields(s, project, workPackageType, h0);
    if f1 == f0 {
      UnchangedFieldsDecodeOnce(s, body, project, workPackageType);
    } else {
      ChangedFieldsDecodeTwice(s, body, project, workPackageType);
      if s.decode(s.currentUser, body, f1).Success? {
        var raw0 := s.decode(s.currentUser, body, f0).value;
        var raw1 := s.decode(s.currentUser, body, f1).value;
        var h1 := Normalize(raw1);
        assert Call(s, body, project, workPackageType).value == Success(h1);
        NormalizeKeepsContextIds(raw0);
        NormalizeKeepsContextIds(raw1);
        assert Get(h1, ProjectIdKey) == Get(h0, ProjectIdKey);
        assert Get(h1, TypeIdKey) == Get(h0, TypeIdKey);
        CustomFieldsForDependsOnIds(s, project, workPackageType, h0, h1);
      }
    }
  }

  /**
   A service whose decoder reports `type_id` 7 when built without custom
   fields and 8 when built with any; type 7 has the fields `[1]`, type 8 the
   fields `[2]`.
   */
  function StaleTypeService(): Service<int, int, int, int, int>
  {
    Service(
      0,
      (user: int, body: Value, fields: seq<int>) =>
        if fields == [] then Success(map[TypeIdKey := Int(7)]) else Success(map[TypeIdKey := Int(8)]),
      (project: Option<int>, workPackageType: Option<int>) =>
        if workPackageType == Some(7) then [1] else if workPackageType == Some(8) then [2] else [],
      (id: Value) => None,
      (id: Value) => if id.Int? then Some(id.i) else None)
  }

  /**
   The output of the second pass is never checked again. When the decoder
   reads `type_id` differently under the new fields, the returned hash
   (`type_id` 8) was decoded with the fields of type 7, not with those its own
   type selects.
   */
  lemma SecondPassIsNotRechecked()
    ensures var s := StaleTypeService();
      var r := Call(s, Dict(map[]), None, None);
      && r.value.Success?
      && Get(r.value.value, TypeIdKey) == Int(8)
      && Decodings(r.effects) == [Decoding(Dict(map[]), []), Decoding(Dict(map[]), [1])]
      && RecomputedFields(s, None, None, r.value.value) == [2]
  {
    var s := StaleTypeService();
    var h0 := FirstPass(s, Dict(map[]), None, None);
    assert InitialFields(s, None, None) == [];
    assert Get(h0.value, TypeIdKey) == Int(7);
    assert RecomputedFields(s, None, None, h0.value) == [1];
    ChangedFieldsDecodeTwice(s, Dict(map[]), None, None);
    var h1 := Normalize(map[TypeIdKey := Int(8)]);
    assert Call(s, Dict(map[]), None, None).value == Success(h1);
    assert Get(h1, TypeIdKey) == Int(8);
  }

  /** Only the `project_id` and `type_id` entries of a hash influence its custom fields. */
  lemma CustomFieldsForDependsOnIds<U, P, T, F, E>(
    s: Service<U, P, T, F, E>, project: Option<P>, workPackageType: Option<T>, h1: Hash, h2: Hash)
    requires Get(h1, ProjectIdKey) == Get(h2, ProjectIdKey)
    requires Get(h1, TypeIdKey) == Get(h2, TypeIdKey)
    ensures CustomFieldsFor(s, project, workPackageType, h1) == CustomFieldsFor(s, project, workPackageType, h2)
  {
  }

  /**
   Parsing is deterministic: two services whose collaborators answer every
   question alike give the same result and the same calls.
   */
  lemma CallDeterministic<U, P, T, F, E>(
    s1: Service<U, P, T, F, E>, s2: Service<U, P, T, F, E>,
    body: Value, project: Option<P>, workPackageType: Option<T>)
    requires forall f :: s1.decode(s1.currentUser, body, f) == s2.decode(s2.currentUser, body, f)
    requires forall p: Option<P>, t: Option<T> :: s1.availableFields(p, t) == s2.availableFields(p, t)
    requires forall id: Value :: s1.findProject(id) == s2.findProject(id)
    requires forall id: Value :: s1.findType(id) == s2.findType(id)
    ensures Call(s1, body, project, workPackageType) == Call(s2, body, project, workPackageType)
  {
    if Truthy(body) {
      var initial := CustomFieldsFor(s1, project, workPackageType, map[]);
      CustomFieldsForAgree(s1, s2, project, workPackageType, map[]);
      var pass1 := ParseAttributesWithRepresenter(s1, body, initial.value);
      assert pass1 == ParseAttributesWithRepresenter(s2, body, initial.value);
      if pass1.value.Success? {
        var recomputed := CustomFieldsFor(s1, project, workPackageType, pass1.value.value);
        CustomFieldsForAgree(s1, s2, project, workPackageType, pass1.value.value);
        assert ParseAttributesWithRepresenter(s1, body, recomputed.value)
               == ParseAttributesWithRepresenter(s2, body, recomputed.value);
      }
    }
  }

  lemma CustomFieldsForAgree<U, P, T, F, E>(
    s1: Service<U, P, T, F, E>, s2: Service<U, P, T, F, E>,
    project: Option<P>, workPackageType: Option<T>, hash: Hash)
    requires forall p: Option<P>, t: Option<T> :: s1.availableFields(p, t) == s2.availableFields(p, t)
    requires forall id: Value :: s1.findProject(id) == s2.findProject(id)
    requires forall id: Value :: s1.findType(id) == s2.findType(id)
    ensures CustomFieldsFor(s1, project, workPackageType, hash) == CustomFieldsFor(s2, project, workPackageType, hash)
  {
    var projectId := Get(hash, ProjectIdKey);
    var typeId := Get(hash, TypeIdKey);
    var project' := if Truthy(projectId) then s1.findProject(projectId) else project;
    var type' := if Truthy(typeId) then s1.findType(typeId) else workPackageType;
    assert project' == if Truthy(projectId) then s2.findProject(projectId) else project;
    assert type' == if Truthy(typeId) then s2.findType(typeId) else workPackageType;
    FieldsAgreeAt(s1, s2, project', type');
  }

  lemma FieldsAgreeAt<U, P, T, F, E>(
    s1: Service<U, P, T, F, E>, s2: Service<U, P, T, F, E>, project: Option<P>, workPackageType: Option<T>)
    requires forall p: Option<P>, t: Option<T> :: s1.availableFields(p, t) == s2.availableFields(p, t)
    ensures s1.availableFields(project, workPackageType) == s2.availableFields(project, workPackageType)
  {
  }
}
