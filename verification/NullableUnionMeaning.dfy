/** The rewrite preserves meaning, and where the claim of nullability can be trusted. */
module NullableUnionMeaning {
  import opened Options
  import opened Json
  import opened NullableUnion

  /** The schema that says nothing. */
  const BLANK: Keywords := Keywords(
    NoType, None, None, NoList, NoList, NoList, NoSchema, None, None, Unconditional, None, map[])

  // ----- Stripping null members -----

  lemma {:induction false} NonNullMembersMeaning(members: seq<Json>, v: Json)
    ensures v in NonNullMembers(members) <==> v in members && v != Null
    ensures |NonNullMembers(members)| <= |members|
    ensures |NonNullMembers(members)| == |members| <==> Null !in members
  {
    if members != [] {
      NonNullMembersMeaning(members[1..], v);
      NonNullMembersMeaning(members[1..], Null);
    }
  }

  /** A member and the label standing beside it. */
  function Labelled(members: seq<Json>, names: seq<Json>): seq<(Json, Json)>
    requires |members| == |names|
  {
    seq(|members|, i requires 0 <= i < |members| => (members[i], names[i]))
  }

  function SelectablePairs(pairs: seq<(Json, Json)>): seq<(Json, Json)> {
    if pairs == [] then []
    else (if pairs[0].0 == Null then [] else [pairs[0]]) + SelectablePairs(pairs[1..])
  }

  lemma {:induction false} KeptNamesAligned(members: seq<Json>, names: seq<Json>)
    requires |members| == |names|
    ensures |KeptNames(members, names)| == |NonNullMembers(members)|
    ensures Labelled(NonNullMembers(members), KeptNames(members, names)) == SelectablePairs(Labelled(members, names))
  {
    if members != [] {
      KeptNamesAligned(members[1..], names[1..]);
      assert Labelled(members, names)[1..] == Labelled(members[1..], names[1..]);
      var ms, ns := NonNullMembers(members[1..]), KeptNames(members[1..], names[1..]);
      if members[0] != Null {
        assert Labelled([members[0]] + ms, [names[0]] + ns) == [(members[0], names[0])] + Labelled(ms, ns);
      } else {
        assert NonNullMembers(members) == ms && KeptNames(members, names) == ns;
      }
    }
  }

  /**
   * Whenever null members were stripped, the labels of the result are either gone or stand beside exactly the members
   * they stood beside before.
   */
  lemma EnumNamesStayAligned(members: seq<Json>, names: Option<Json>)
    requires StripNullEnumMembers(Some(members), names).Filtered?
    ensures
      var strip := StripNullEnumMembers(Some(members), names);
      && Null in members && strip.members != [] && Null !in strip.members
      && (strip.names.Some? <==> names.Some? && names.value.Arr? && |names.value.items| == |members|)
      && (strip.names.Some? ==>
            && strip.names.value.Arr?
            && |strip.names.value.items| == |strip.members|
            && Labelled(strip.members, strip.names.value.items) ==
               SelectablePairs(Labelled(members, names.value.items)))
  {
    NonNullMembersMeaning(members, Null);
    if names.Some? && names.value.Arr? && |names.value.items| == |members| {
      KeptNamesAligned(members, names.value.items);
    }
  }

  /** The schema whose keywords the result takes: the hoisted merge for a union, the schema itself for a type list. */
  function Source(k: Keywords): Keywords
    requires Normalize(k).Some?
  {
    if CollapseUnion(k).Some? then Merge(k, SurvivingBranch(k).value) else k
  }

  /**
   * A rewritten enum offers exactly the non-null members, at least one; with nothing stripped its labels are left
   * alone.
   */
  lemma NormalizedEnum(k: Keywords)
    requires Normalize(k).Some?
    ensures StripNullEnumMembers(Source(k).enumeration, Source(k).enumNames).Filtered? <==>
            Source(k).enumeration.Some? && Null in Source(k).enumeration.value
    ensures
      var source, r := Source(k), Normalize(k).value;
      && (source.enumeration.None? ==> r.enumeration.None? && r.enumNames == source.enumNames)
      && (source.enumeration.Some? ==>
            && r.enumeration == Some(NonNullMembers(source.enumeration.value)) && r.enumeration.value != []
            && (Null !in source.enumeration.value ==> r.enumNames == source.enumNames)
            && (Null in source.enumeration.value ==>
                  r.enumNames == StripNullEnumMembers(source.enumeration, source.enumNames).names))
  {
    var source := Source(k);
    if source.enumeration.Some? {
      NonNullMembersMeaning(source.enumeration.value, Null);
      NothingStripped(source.enumeration.value);
    }
  }

  lemma {:induction false} NothingStripped(members: seq<Json>)
    ensures Null !in members ==> NonNullMembers(members) == members
  {
    if members != [] {
      NothingStripped(members[1..]);
      assert members == [members[0]] + members[1..];
    }
  }

  // ----- Non-null values -----

  lemma SameNull(v: Json)
    ensures Same(v, Null) <==> v == Null
    ensures Same(Null, v) <==> v == Null
  {
  }

  lemma StripKeepsNonNull(members: seq<Json>, v: Json)
    requires v != Null
    ensures (exists m <- NonNullMembers(members) :: Same(m, v)) <==> (exists m <- members :: Same(m, v))
  {
    forall m {
      NonNullMembersMeaning(members, m);
    }
    SameNull(v);
  }

  /** `Collapsed` changes the type, the union, the flag and the enum, and nothing else. */
  lemma CollapsedMeaning(m: Meaning, s: Keywords, merged: Keywords, typ: string, v: Json)
    requires v != Null && Collapsed(s, merged, typ).Some?
    ensures
      ValidKeywords(m, Collapsed(s, merged, typ).value, v) <==>
      ValidKeywords(m, merged.(typ := OneType(typ), anyOf := NoList), v)
  {
    if merged.enumeration.Some? {
      StripKeepsNonNull(merged.enumeration.value, v);
    }
  }

  lemma HoistedBranch(k: Keywords)
    requires CollapseUnion(k).Some?
    ensures
      var b := SurvivingBranch(k).value;
      var merged := Merge(k, b);
      && merged.(anyOf := NoList) == b.(enumNames := merged.enumNames, rest := merged.rest)
      && Constraints(merged.rest) == Constraints(b.rest)
  {
    var b := SurvivingBranch(k).value;
    assert forall key <- k.rest + b.rest :: key !in ANNOTATION_KEYWORDS ==> key in b.rest;
  }

  lemma UnionKeepsNonNull(m: Meaning, k: Keywords, v: Json)
    requires Sensible(m) && CollapseUnion(k).Some? && v != Null
    ensures ValidKeywords(m, k, v) <==> ValidKeywords(m, CollapseUnion(k).value, v)
  {
    var b := SurvivingBranch(k).value;
    var typ := BranchType(b).value;
    HoistedBranch(k);
    CollapsedMeaning(m, k, Merge(k, b), typ, v);
    UnionIsItsBranch(m, k, v);
    if b.typ.NoType? && EnumOk(b.enumeration, v) {
      assert v.Str?;
    }
  }

  /**
   * Under annotations alone, a value other than null is valid for the union when it is for the branch that is not
   * null.
   */
  lemma UnionIsItsBranch(m: Meaning, k: Keywords, v: Json)
    requires Sensible(m) && SurvivingBranch(k).Some? && !WrapperCarriesConstraints(k) && v != Null
    ensures ValidKeywords(m, k, v) <==> ValidKeywords(m, SurvivingBranch(k).value, v)
  {
    var a, b := k.anyOf.items[0], k.anyOf.items[1];
    assert AnyOfOk(m, k.anyOf, v) <==> Valid(m, a, v) || Valid(m, b, v);
    assert ValidKeywords(m, k, v) <==> AnyOfOk(m, k.anyOf, v);
    if IsNullBranch(a) {
      assert !ValidKeywords(m, a.keywords, v);
    } else {
      assert !ValidKeywords(m, b.keywords, v);
    }
  }

  lemma TypeListKeepsNonNull(m: Meaning, k: Keywords, v: Json)
    requires CollapseTypeList(k).Some? && v != Null
    ensures ValidKeywords(m, k, v) <==> ValidKeywords(m, CollapseTypeList(k).value, v)
  {
    var typ := if k.typ.names[0] != "null" then k.typ.names[0] else k.typ.names[1];
    CollapsedMeaning(m, k, k, typ, v);
    assert k.typ.names[0] in k.typ.names && k.typ.names[1] in k.typ.names;
    assert TypeOk(m, k.(typ := OneType(typ), anyOf := NoList), v) <==> TypeOk(m, k, v);
  }

  /**
   * A rewritten schema accepts exactly the non-null values the original accepts, whatever `$ref` and the other
   * keywords mean.
   */
  lemma NormalizeKeepsNonNull(m: Meaning, k: Keywords, v: Json)
    requires Sensible(m) && Normalize(k).Some? && v != Null
    ensures ValidKeywords(m, k, v) <==> ValidKeywords(m, Normalize(k).value, v)
  {
    if CollapseUnion(k).Some? {
      UnionKeepsNonNull(m, k, v);
    } else {
      TypeListKeepsNonNull(m, k, v);
    }
  }

  // ----- Null -----

  ghost predicate Unconditioned(k: Keywords) {
    && k.conditional.Unconditional?
    && (k.anyOf.List? ==> forall b <- k.anyOf.items :: b.Object? ==> b.keywords.conditional.Unconditional?)
  }

  lemma ClaimingBranchAcceptsNull(m: Meaning, branch: Schema)
    requires NullBlind(m) && ClaimsNull(branch) && branch.keywords.conditional.Unconditional?
    ensures Valid(m, branch, Null)
  {
    TypeNamingNullAcceptsNull(m, branch.keywords);
  }

  lemma TypeNamingNullAcceptsNull(m: Meaning, k: Keywords)
    requires TypeNamesNull(k.typ)
    ensures TypeOk(m, k, Null)
  {
    if k.typ.TypeList? {
      assert HasType(Null, "null");
    }
  }

  /**
   * A yes from `AdmitsNull` can be trusted, for a union of any size and any meaning of `$ref`, on every schema that
   * does not carry the OpenAPI `nullable` flag or a conditional.
   */
  lemma AdmitsNullIsSound(m: Meaning, k: Keywords)
    requires NullBlind(m) && k.nullable != Some(true) && Unconditioned(k)
    ensures AdmitsNull(k) ==> ValidKeywords(m, k, Null)
  {
    if AdmitsNull(k) {
      OwnLevelAcceptsNull(m, k);
      if k.typ.NoType? {
        var i :| 0 <= i < |k.anyOf.items| && ClaimsNull(k.anyOf.items[i]);
        assert k.anyOf.items[i] in k.anyOf.items;
        ClaimingBranchAcceptsNull(m, k.anyOf.items[i]);
      } else {
        TypeNamingNullAcceptsNull(m, k);
      }
    }
  }

  /** What `AdmitsNull` checks of a schema's own level leaves the type, the union and the conditional to decide. */
  lemma OwnLevelAcceptsNull(m: Meaning, k: Keywords)
    requires NullBlind(m) && AdmitsNull(k)
    ensures
      ValidKeywords(m, k, Null) <==>
      TypeOk(m, k, Null) && AnyOfOk(m, k.anyOf, Null) && ConditionalOk(m, k.conditional, Null)
  {
    assert Same(Null, Null);
  }

  /**
   * With the flag set the answer is yes without a look at the union. Where the flag widens the type beside it, as in
   * OpenAPI 3.0, the answer is right exactly when the union and the conditional accept null.
   */
  lemma FlaggedAdmitsNullExactly(m: Meaning, k: Keywords)
    requires NullBlind(m) && m.nullableWidens && AdmitsNull(k) && k.nullable == Some(true)
    ensures ValidKeywords(m, k, Null) <==> AnyOfOk(m, k.anyOf, Null) && ConditionalOk(m, k.conditional, Null)
  {
    OwnLevelAcceptsNull(m, k);
  }

  /** Where a type decides, the answer is right exactly when the conditional accepts null. */
  lemma TypedAdmitsNullExactly(m: Meaning, k: Keywords)
    requires NullBlind(m) && AdmitsNull(k) && !k.typ.NoType? && k.nullable != Some(true)
    ensures ValidKeywords(m, k, Null) <==> ConditionalOk(m, k.conditional, Null)
  {
    OwnLevelAcceptsNull(m, k);
    TypeNamingNullAcceptsNull(m, k);
  }

  /** A branch the answer rests on accepts null exactly when its own conditional does. */
  lemma ClaimingBranchExactly(m: Meaning, branch: Schema)
    requires NullBlind(m) && ClaimsNull(branch)
    ensures Valid(m, branch, Null) <==> ConditionalOk(m, branch.keywords.conditional, Null)
  {
    var k := branch.keywords;
    TypeNamingNullAcceptsNull(m, k);
    assert Same(Null, Null);
    assert Valid(m, branch, Null) <==> ValidKeywords(m, k, Null);
    assert EnumOk(k.enumeration, Null) && ConstOk(k.constant, Null);
    assert AnyOfOk(m, k.anyOf, Null) && OneOfOk(m, k.oneOf, Null) && AllOfOk(m, k.allOf, Null);
    assert NotOk(m, k.negated, Null);
  }

  /**
   * Where the union decides, the answer is right exactly when the conditional beside the union accepts null and so does
   * a branch: one the answer rests on by its conditional alone, any other by all it says.
   */
  lemma UntypedAdmitsNullExactly(m: Meaning, k: Keywords)
    requires NullBlind(m) && AdmitsNull(k) && k.typ.NoType? && k.nullable != Some(true)
    ensures
      ValidKeywords(m, k, Null) <==>
      && ConditionalOk(m, k.conditional, Null)
      && exists i | 0 <= i < |k.anyOf.items| :: BranchAccepts(m, k.anyOf.items[i])
  {
    OwnLevelAcceptsNull(m, k);
    forall i | 0 <= i < |k.anyOf.items|
      ensures BranchAccepts(m, k.anyOf.items[i]) <==> Valid(m, k.anyOf.items[i], Null)
    {
      if ClaimsNull(k.anyOf.items[i]) {
        ClaimingBranchExactly(m, k.anyOf.items[i]);
      }
    }
  }

  ghost predicate BranchAccepts(m: Meaning, branch: Schema) {
    if ClaimsNull(branch) then ConditionalOk(m, branch.keywords.conditional, Null) else Valid(m, branch, Null)
  }

  /** Two families the answer is wrong on: a conditional that rejects null, and a flag beside a union without null. */
  lemma AdmitsNullOverclaims(m: Meaning)
    ensures
      var conditioned := BLANK.(
        typ := TypeList(["string", "null"]), conditional := If(Always(true), TheSchema(Always(false)), NoSchema));
      AdmitsNull(conditioned) && !ValidKeywords(m, conditioned, Null)
    ensures
      var flagged := BLANK.(nullable := Some(true), anyOf := List([Object(BLANK.(typ := OneType("string")))]));
      AdmitsNull(flagged) && !ValidKeywords(m, flagged, Null)
  {
    var text := BLANK.(typ := OneType("string"));
    assert !TypeOk(m, text, Null);
    assert !Valid(m, Object(text), Null);
    var union := List([Object(text)]);
    assert !AnyOfOk(m, union, Null);
    assert "null" in ["string", "null"] by { assert ["string", "null"][1] == "null"; }
    assert !ConditionalOk(m, If(Always(true), TheSchema(Always(false)), NoSchema), Null);
  }

  /**
   * The flag on a rewritten schema: never set unless the original accepts null, and for `[T, "null"]` set exactly
   * then.
   */
  lemma NullableFlagIsTrue(m: Meaning, k: Keywords)
    requires NullBlind(m) && Normalize(k).Some? && Unconditioned(k)
    ensures Normalize(k).value.nullable == Some(true) ==> ValidKeywords(m, k, Null)
    ensures
      CollapseTypeList(k).Some? ==> (Normalize(k).value.nullable == Some(true) <==> ValidKeywords(m, k, Null))
  {
    if CollapseUnion(k).Some? {
      AdmitsNullIsSound(m, k);
    } else {
      TypeListAdmitsNull(m, k);
    }
  }

  lemma TypeListAdmitsNull(m: Meaning, k: Keywords)
    requires NullBlind(m) && CollapseTypeList(k).Some? && Unconditioned(k)
    ensures AdmitsNull(k) <==> ValidKeywords(m, k, Null)
  {
    TypeNamingNullAcceptsNull(m, k);
    if AdmitsNull(k) {
      OwnLevelAcceptsNull(m, k);
    } else {
      forall x {
        SameNull(x);
      }
    }
  }

  /**
   * For the union form the flag misses a valid null only when the null branch composes constraints the rewrite does
   * not read.
   */
  lemma UnionMissesNullOnlyWhenComposed(m: Meaning, k: Keywords)
    requires CollapseUnion(k).Some? && ValidKeywords(m, k, Null) && CollapseUnion(k).value.nullable != Some(true)
    requires !m.nullableWidens
    ensures exists b <- k.anyOf.items :: IsNullBranch(b) && HasUnevaluatedComposition(b.keywords)
  {
    var branch := SurvivingBranch(k).value;
    forall x {
      SameNull(x);
    }
    assert !ValidKeywords(m, branch, Null);
    var a, b := k.anyOf.items[0], k.anyOf.items[1];
    assert a in k.anyOf.items && b in k.anyOf.items;
    var nullBranch := if IsNullBranch(a) then a else b;
    var surviving := if IsNullBranch(a) then b else a;
    assert surviving == Object(branch) && !Valid(m, surviving, Null);
    assert Valid(m, a, Null) || Valid(m, b, Null);
    assert ValidKeywords(m, nullBranch.keywords, Null);
    assert !ClaimsNull(nullBranch);
  }

  // ----- The form that renders -----

  /** What a form needs: one type that has a widget, and no union to choose from. */
  predicate IsFlat(k: Keywords) {
    k.typ.OneType? && k.typ.name in RENDERABLE_TYPES && k.anyOf.NoList? && k.nullable.Some?
  }

  /** A rewritten schema is flat, is never rewritten again, and keeps every keyword the rewrite has no business with. */
  lemma NormalizedIsFlat(k: Keywords)
    requires Normalize(k).Some?
    ensures
      var source, r := Source(k), Normalize(k).value;
      && IsFlat(r) && Normalize(r) == None
      && !HasUnevaluatedComposition(r)
      && r.constant == source.constant && r.conditional == source.conditional && r.rest == source.rest
  {
    if CollapseUnion(k).Some? {
      HoistedBranch(k);
    }
  }

  predicate HasSelectable(members: Option<seq<Json>>) {
    members.Some? ==> exists m <- members.value :: m != Null
  }

  /**
   * The type list `[T, "null"]`, in either order, rewrites exactly when T has a widget, nothing is composed, and a
   * member of the enum is left to select.
   */
  lemma TypeListRewritten(k: Keywords, a: string, b: string)
    requires k.typ == TypeList([a, b]) && k.anyOf.NoList?
    ensures
      Normalize(k).Some? <==>
      && (if a == "null" then b in RENDERABLE_TYPES else b == "null" && a in RENDERABLE_TYPES)
      && !HasOpaqueApplicator(k) && HasSelectable(k.enumeration)
    ensures
      Normalize(k).Some? ==> Normalize(k).value.typ == OneType(if a == "null" then b else a)
  {
    SelectableLeft(k);
    assert "null" in [a, b] <==> a == "null" || b == "null" by { assert [a, b][0] == a && [a, b][1] == b; }
  }

  lemma SelectableLeft(k: Keywords)
    ensures StripNullEnumMembers(k.enumeration, k.enumNames).Unselectable? <==> !HasSelectable(k.enumeration)
  {
    if k.enumeration.Some? {
      forall m {
        NonNullMembersMeaning(k.enumeration.value, m);
      }
      if NonNullMembers(k.enumeration.value) != [] {
        assert NonNullMembers(k.enumeration.value)[0] in NonNullMembers(k.enumeration.value);
      }
    }
  }

  /** A wrapper that holds a union and describes it, and says nothing else. */
  predicate OnlyDescribes(k: Keywords) {
    && k == BLANK.(anyOf := k.anyOf, enumNames := k.enumNames, rest := k.rest)
    && Constraints(k.rest) == map[]
  }

  lemma DescribingIsNoConstraint(k: Keywords)
    ensures !WrapperCarriesConstraints(k) <==> OnlyDescribes(k)
  {
    if key :| key in k.rest && key !in ANNOTATION_KEYWORDS {
      assert key in Constraints(k.rest);
    }
  }

  /** The example everybody meets: a titled, described, nullable string with a default. */
  lemma TitledUnion(title: Json, description: Json, default: Json)
    ensures
      var words := map["title" := title, "description" := description, "default" := default];
      var text, none := Object(BLANK.(typ := OneType("string"))), Object(BLANK.(typ := OneType("null")));
      Normalize(BLANK.(anyOf := List([text, none]), rest := words)) ==
      Some(BLANK.(typ := OneType("string"), nullable := Some(true), rest := words))
  {
    var words := map["title" := title, "description" := description, "default" := default];
    var k := BLANK.(
      anyOf := List([Object(BLANK.(typ := OneType("string"))), Object(BLANK.(typ := OneType("null")))]), rest := words);
    DescribingIsNoConstraint(k);
    UnionRewritten(k, BLANK.(typ := OneType("string")), BLANK.(typ := OneType("null")), false);
    assert words + map[] == words;
  }

  /** A branch that leaves nothing to other schemas: no composition, and no reference. */
  predicate StandsAlone(k: Keywords) {
    k == k.(anyOf := NoList, oneOf := NoList, allOf := NoList, negated := NoSchema, reference := None)
  }

  lemma AloneIsEvaluated(k: Keywords)
    ensures !HasUnevaluatedComposition(k) <==> StandsAlone(k)
    ensures !HasOpaqueApplicator(k) <==> StandsAlone(k.(anyOf := NoList))
  {
  }

  /** The types with a widget are those a value other than null can have. */
  lemma RenderableTypes(name: string)
    ensures name in RENDERABLE_TYPES <==> exists v: Json :: v != Null && HasType(v, name)
  {
    assert HasType(Bool(true), "boolean") && HasType(Num(Whole(0)), "number") && HasType(Num(Whole(0)), "integer");
    assert HasType(Str(""), "string") && HasType(Arr([]), "array") && HasType(Obj([]), "object");
  }

  /** The type of a branch a form can show: its own, if one value other than null has it, or an enum of strings. */
  ghost predicate CanBeShown(branch: Keywords) {
    match branch.typ
    case OneType(name) => exists v: Json :: v != Null && HasType(v, name)
    case NoType =>
      branch.enumeration.Some? && branch.enumeration.value != [] && forall m <- branch.enumeration.value :: m.Str?
    case TypeList(_) => false
  }

  /**
   * The union of a type and `null`, in either order, rewrites exactly when its wrapper only describes it, whatever the
   * description, the type has a widget, its branch stands alone, and a member of the branch's enum is left to select.
   */
  lemma UnionRewritten(k: Keywords, branch: Keywords, nullBranch: Keywords, nullFirst: bool)
    requires
      k.anyOf ==
      List(if nullFirst then [Object(nullBranch), Object(branch)] else [Object(branch), Object(nullBranch)])
    requires nullBranch.typ == OneType("null") && branch.typ != OneType("null")
    ensures
      CollapseUnion(k).Some? <==>
      OnlyDescribes(k) && CanBeShown(branch) && StandsAlone(branch) && HasSelectable(branch.enumeration)
    ensures OnlyDescribes(k) ==> (Normalize(k).Some? <==> CollapseUnion(k).Some?)
    ensures
      CollapseUnion(k).Some? ==>
        CollapseUnion(k).value.typ == if branch.typ.OneType? then branch.typ else OneType("string")
    ensures
      CollapseUnion(k).Some? && !NullExcludedBySiblings(nullBranch) && StandsAlone(nullBranch) ==>
        CollapseUnion(k).value.nullable == Some(true)
  {
    assert SurvivingBranch(k) == Some(branch);
    DescribingIsNoConstraint(k);
    AloneIsEvaluated(branch);
    AloneIsEvaluated(nullBranch);
    if branch.typ.OneType? {
      RenderableTypes(branch.typ.name);
    }
    if !WrapperCarriesConstraints(k) {
      SelectableLeft(Merge(k, branch));
      assert Object(nullBranch) == k.anyOf.items[if nullFirst then 0 else 1];
    }
  }

  /** The description of a rewritten union: the branch's words where it has some, the wrapper's where it has none. */
  lemma UnionKeepsDescription(k: Keywords, key: string)
    requires CollapseUnion(k).Some?
    ensures
      var b, r := SurvivingBranch(k).value, CollapseUnion(k).value;
      && (key in r.rest <==> key in b.rest || key in k.rest)
      && (key in b.rest ==> r.rest[key] == b.rest[key])
      && (key in k.rest && key !in b.rest ==> r.rest[key] == k.rest[key])
      && (b.enumeration.None? && b.enumNames.None? ==> r.enumNames == k.enumNames)
  {
  }

  /** An enum or a const, where there is one, that lets null through. */
  predicate LetsNullThrough(k: Keywords) {
    (k.enumeration.Some? ==> Null in k.enumeration.value) && (k.constant.Some? ==> k.constant.value == Null)
  }

  /** However many branches a union has, any one that names null, lets it through and stands alone earns a yes. */
  lemma AnyNullBranchIsSeen(k: Keywords, i: nat, branch: Keywords)
    requires k.anyOf.List? && i < |k.anyOf.items| && k.anyOf.items[i] == Object(branch)
    requires k.typ.NoType? && StandsAlone(k.(anyOf := NoList)) && LetsNullThrough(k)
    requires branch.typ == OneType("null") || (branch.typ.TypeList? && "null" in branch.typ.names)
    requires StandsAlone(branch) && LetsNullThrough(branch)
    ensures AdmitsNull(k)
  {
    assert ClaimsNull(k.anyOf.items[i]);
  }

  /**
   * Read as OpenAPI 3.0 reads it, where the flag widens the type, a rewritten `[T, "null"]` means what it meant for
   * every value, null included, exactly when it has no enum, or excluded null to begin with. Otherwise null has been
   * taken out of the enum, and the flag alone speaks for it.
   */
  lemma TypeListKeepsMeaning(m: Meaning, k: Keywords)
    requires NullBlind(m) && m.nullableWidens && CollapseTypeList(k).Some? && Normalize(k).Some? && Unconditioned(k)
    ensures
      (forall v :: ValidKeywords(m, k, v) <==> ValidKeywords(m, Normalize(k).value, v)) <==>
      k.enumeration.None? || NullExcludedBySiblings(k)
  {
    var r := Normalize(k).value;
    assert CollapseUnion(k).None?;
    forall v | v != Null
      ensures ValidKeywords(m, k, v) <==> ValidKeywords(m, r, v)
    {
      TypeListKeepsNonNull(m, k, v);
    }
    NullableFlagIsTrue(m, k);
    TypeListAdmitsNull(m, k);
    if k.enumeration.Some? {
      NonNullMembersMeaning(k.enumeration.value, Null);
    }
    forall x {
      SameNull(x);
    }
    assert ValidKeywords(m, k, Null) <==> !NullExcludedBySiblings(k);
  }
}
