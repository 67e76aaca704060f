/**
 * Flattening "this type, or null" into one type a form can render, and what that does to the meaning of the schema.
 *
 * The schema fragment is the keywords the rewrite reads, plus `if`/`then`/`else`, plus every other keyword under one
 * uninterpreted meaning. Validity follows JSON Schema 2020-12: sections 6.1.1 to 6.1.3 of Validation for `type`,
 * `enum` and `const`, section 10.2 of Core for the applicators.
 */
module NullableUnion {
  import opened Options
  import opened Json

  datatype TypeKeyword = NoType | OneType(name: string) | TypeList(names: seq<string>)

  datatype SchemaList = NoList | List(items: seq<Schema>)

  datatype SchemaOption = NoSchema | TheSchema(schema: Schema)

  /** A boolean schema, or an object of keywords. */
  datatype Schema = Always(holds: bool) | Object(keywords: Keywords)

  /** `if` with what stands beside it; a `then` or `else` without an `if` means nothing and counts among `rest`. */
  datatype Conditional = Unconditional | If(condition: Schema, thenSchema: SchemaOption, elseSchema: SchemaOption)

  /** `rest` holds the keywords that have no field of their own, those that only describe among them. */
  datatype Keywords = Keywords(
    typ: TypeKeyword,
    enumeration: Option<seq<Json>>,
    constant: Option<Json>,
    anyOf: SchemaList,
    oneOf: SchemaList,
    allOf: SchemaList,
    negated: SchemaOption,
    reference: Option<string>,
    nullable: Option<bool>,
    conditional: Conditional,
    enumNames: Option<Json>,
    rest: map<string, Json>)

  // ----- The rewrite -----

  const RENDERABLE_TYPES: set<string> := {"string", "number", "integer", "boolean", "array", "object"}

  /** Keywords that say nothing about which values are valid; `enumNames` is another, with a field of its own. */
  const ANNOTATION_KEYWORDS: set<string> := {
    "title", "description", "default", "examples", "deprecated", "readOnly", "writeOnly", "$comment", "$schema", "$id"}

  predicate IsStringEnum(members: Option<seq<Json>>) {
    members.Some? && |members.value| > 0 && forall m <- members.value :: m.Str?
  }

  predicate NullExcludedBySiblings(k: Keywords) {
    (k.enumeration.Some? && Null !in k.enumeration.value) || (k.constant.Some? && k.constant.value != Null)
  }

  predicate WrapperCarriesConstraints(k: Keywords) {
    !(k.typ.NoType? && k.enumeration.None? && k.constant.None? && k.oneOf.NoList? && k.allOf.NoList? &&
      k.negated.NoSchema? && k.reference.None? && k.nullable.None? && k.conditional.Unconditional? &&
      forall key <- k.rest :: key in ANNOTATION_KEYWORDS)
  }

  predicate TypeNamesNull(t: TypeKeyword) {
    match t
    case NoType => false
    case OneType(name) => name == "null"
    case TypeList(names) => "null" in names
  }

  predicate HasOpaqueApplicator(k: Keywords) {
    !k.negated.NoSchema? || !k.allOf.NoList? || !k.oneOf.NoList? || k.reference.Some?
  }

  predicate HasUnevaluatedComposition(k: Keywords) {
    !k.anyOf.NoList? || HasOpaqueApplicator(k)
  }

  predicate ClaimsNull(branch: Schema) {
    && branch.Object?
    && TypeNamesNull(branch.keywords.typ)
    && !NullExcludedBySiblings(branch.keywords)
    && !HasUnevaluatedComposition(branch.keywords)
  }

  predicate AdmitsNull(k: Keywords) {
    if NullExcludedBySiblings(k) || HasOpaqueApplicator(k) then false
    else if k.nullable == Some(true) then true
    else if !k.typ.NoType? then k.anyOf.NoList? && TypeNamesNull(k.typ)
    else k.anyOf.List? && exists i | 0 <= i < |k.anyOf.items| :: ClaimsNull(k.anyOf.items[i])
  }

  function NonNullMembers(members: seq<Json>): seq<Json> {
    if members == [] then []
    else (if members[0] == Null then [] else [members[0]]) + NonNullMembers(members[1..])
  }

  /** The names standing at the indices of the kept members. */
  function KeptNames(members: seq<Json>, names: seq<Json>): seq<Json>
    requires |members| == |names|
  {
    if members == [] then []
    else (if members[0] == Null then [] else [names[0]]) + KeptNames(members[1..], names[1..])
  }

  datatype EnumStrip = Unchanged | Filtered(members: seq<Json>, names: Option<Json>) | Unselectable

  function StripNullEnumMembers(members: Option<seq<Json>>, names: Option<Json>): EnumStrip {
    if members.None? then Unchanged else
    var kept := NonNullMembers(members.value);
    if kept == [] then Unselectable
    else if |kept| == |members.value| then Unchanged
    else if names.Some? && names.value.Arr? && |names.value.items| == |members.value| then
      Filtered(kept, Some(Arr(KeptNames(members.value, names.value.items))))
    else Filtered(kept, None)
  }

  /** The spread `{ ...schema, ...branch }`. */
  function Merge(s: Keywords, b: Keywords): Keywords {
    Keywords(
      if b.typ.NoType? then s.typ else b.typ,
      if b.enumeration.None? then s.enumeration else b.enumeration,
      if b.constant.None? then s.constant else b.constant,
      if b.anyOf.NoList? then s.anyOf else b.anyOf,
      if b.oneOf.NoList? then s.oneOf else b.oneOf,
      if b.allOf.NoList? then s.allOf else b.allOf,
      if b.negated.NoSchema? then s.negated else b.negated,
      if b.reference.None? then s.reference else b.reference,
      if b.nullable.None? then s.nullable else b.nullable,
      if b.conditional.Unconditional? then s.conditional else b.conditional,
      if b.enumNames.None? then s.enumNames else b.enumNames,
      s.rest + b.rest)
  }

  function Collapsed(s: Keywords, merged: Keywords, typ: string): Option<Keywords> {
    var strip := StripNullEnumMembers(merged.enumeration, merged.enumNames);
    if strip.Unselectable? then None else
    var flat := merged.(typ := OneType(typ), anyOf := NoList, nullable := Some(AdmitsNull(s)));
    Some(if strip.Filtered? then flat.(enumeration := Some(strip.members), enumNames := strip.names) else flat)
  }

  predicate IsNullBranch(b: Schema) {
    b.Object? && b.keywords.typ == OneType("null")
  }

  predicate IsRealBranch(b: Schema) {
    b.Object? && b.keywords.typ != OneType("null")
  }

  /** The surviving branch of a two-member `anyOf` whose other member is the null branch. */
  function SurvivingBranch(k: Keywords): Option<Keywords> {
    if !(k.anyOf.List? && |k.anyOf.items| == 2) then None else
    var a, b := k.anyOf.items[0], k.anyOf.items[1];
    if IsRealBranch(a) && IsNullBranch(b) then Some(a.keywords)
    else if IsNullBranch(a) && IsRealBranch(b) then Some(b.keywords)
    else None
  }

  function BranchType(branch: Keywords): Option<string> {
    match branch.typ
    case OneType(name) => Some(name)
    case TypeList(_) => None
    case NoType => if IsStringEnum(branch.enumeration) then Some("string") else None
  }

  function CollapseUnion(k: Keywords): Option<Keywords> {
    var branch := SurvivingBranch(k);
    if branch.None? || WrapperCarriesConstraints(k) || HasUnevaluatedComposition(branch.value) then None else
    var typ := BranchType(branch.value);
    if typ.Some? && typ.value in RENDERABLE_TYPES then Collapsed(k, Merge(k, branch.value), typ.value) else None
  }

  function CollapseTypeList(k: Keywords): Option<Keywords> {
    if !(k.typ.TypeList? && |k.typ.names| == 2 && "null" in k.typ.names) || HasUnevaluatedComposition(k) then None else
    var typ := if k.typ.names[0] != "null" then k.typ.names[0] else k.typ.names[1];
    if typ in RENDERABLE_TYPES then Collapsed(k, k, typ) else None
  }

  /** `None` when the schema is returned by identity. */
  function Normalize(k: Keywords): Option<Keywords> {
    var union := CollapseUnion(k);
    if union.Some? then union else CollapseTypeList(k)
  }

  // ----- The meaning of a schema -----

  /**
   * What a schema's surroundings decide: whether the OpenAPI `nullable` flag widens the `type` beside it, what a
   * `$ref` points at, and what the keywords outside the fragment say of a value.
   */
  datatype Meaning = Meaning(
    nullableWidens: bool,
    reference: (string, Json) -> bool,
    others: (map<string, Json>, Json) -> bool)

  /** The keywords that can say something about a value. */
  function Constraints(rest: map<string, Json>): map<string, Json> {
    map key <- rest | key !in ANNOTATION_KEYWORDS :: rest[key]
  }

  /** No keywords, no constraint. */
  ghost predicate Sensible(m: Meaning) {
    forall v :: m.others(map[], v)
  }

  /** Bounds, patterns and object keywords constrain values of their own types only. */
  ghost predicate NullBlind(m: Meaning) {
    forall o :: m.others(o, Null)
  }

  ghost predicate HasType(v: Json, name: string) {
    match v
    case Null => name == "null"
    case Bool(_) => name == "boolean"
    case Num(x) => name == "number" || (name == "integer" && x.Whole?)
    case Str(_) => name == "string"
    case Arr(_) => name == "array"
    case Obj(_) => name == "object"
  }

  ghost predicate TypeOk(m: Meaning, k: Keywords, v: Json) {
    match k.typ
    case NoType => true
    case OneType(name) => HasType(v, name) || (m.nullableWidens && k.nullable == Some(true) && v == Null)
    case TypeList(names) =>
      (exists name <- names :: HasType(v, name)) || (m.nullableWidens && k.nullable == Some(true) && v == Null)
  }

  ghost predicate EnumOk(members: Option<seq<Json>>, v: Json) {
    members.Some? ==> exists member <- members.value :: Same(member, v)
  }

  ghost predicate ConstOk(constant: Option<Json>, v: Json) {
    constant.Some? ==> Same(constant.value, v)
  }

  ghost predicate AnyOfOk(m: Meaning, branches: SchemaList, v: Json)
    decreases branches
  {
    branches.List? ==> exists i | 0 <= i < |branches.items| :: Valid(m, branches.items[i], v)
  }

  ghost predicate OneOfOk(m: Meaning, branches: SchemaList, v: Json)
    decreases branches
  {
    branches.List? ==>
      exists i | 0 <= i < |branches.items| ::
        && Valid(m, branches.items[i], v)
        && forall j | 0 <= j < |branches.items| && j != i :: !Valid(m, branches.items[j], v)
  }

  ghost predicate AllOfOk(m: Meaning, branches: SchemaList, v: Json)
    decreases branches
  {
    branches.List? ==> forall i | 0 <= i < |branches.items| :: Valid(m, branches.items[i], v)
  }

  ghost predicate NotOk(m: Meaning, negated: SchemaOption, v: Json)
    decreases negated
  {
    negated.TheSchema? ==> !Valid(m, negated.schema, v)
  }

  ghost predicate ConditionalOk(m: Meaning, c: Conditional, v: Json)
    decreases c
  {
    c.If? ==>
      if Valid(m, c.condition, v)
      then c.thenSchema.TheSchema? ==> Valid(m, c.thenSchema.schema, v)
      else c.elseSchema.TheSchema? ==> Valid(m, c.elseSchema.schema, v)
  }

  ghost predicate ValidKeywords(m: Meaning, k: Keywords, v: Json)
    decreases k
  {
    && TypeOk(m, k, v)
    && EnumOk(k.enumeration, v)
    && ConstOk(k.constant, v)
    && AnyOfOk(m, k.anyOf, v)
    && OneOfOk(m, k.oneOf, v)
    && AllOfOk(m, k.allOf, v)
    && NotOk(m, k.negated, v)
    && (k.reference.Some? ==> m.reference(k.reference.value, v))
    && ConditionalOk(m, k.conditional, v)
    && m.others(Constraints(k.rest), v)
  }

  ghost predicate Valid(m: Meaning, s: Schema, v: Json)
    decreases s
  {
    match s
    case Always(holds) => holds
    case Object(k) => ValidKeywords(m, k, v)
  }
}
