/**
 * The scan of a tool's input schema for `x-mcp-header` annotations: a recursive walk that collects declarations, keeps
 * a map of the names seen, and stops at the first fault.
 */
module HeaderScan {
  import opened Options
  import opened Json
  import Decimal

  const X_MCP_HEADER_KEY := "x-mcp-header"

  const PERMITTED_TYPES: set<string> := {"string", "integer", "boolean", "number"}

  const NON_REACHABLE_KEYWORDS: seq<string> := [
    "items", "prefixItems", "contains", "additionalProperties", "unevaluatedProperties", "unevaluatedItems",
    "propertyNames", "patternProperties", "dependentSchemas", "oneOf", "anyOf", "allOf", "not", "if", "then", "else",
    "$defs", "definitions"]

  const OBJECT_VALUED_KEYWORDS: set<string> := {"patternProperties", "dependentSchemas", "$defs", "definitions"}

  datatype Declaration = Declaration(path: seq<string>, headerName: string, typ: string)

  datatype Fault =
    | NotReachable(path: seq<string>)
    | NotAString(path: seq<string>)
    | NotAToken(path: seq<string>, name: string)
    | NotPrimitive(path: seq<string>, typ: Option<string>)
    | NotUnique(name: string, prior: string)

  datatype Scan = Valid(declarations: seq<Declaration>) | Invalid(fault: Fault)

  // ----- Reading one node -----

  function Lookup(members: seq<(string, Json)>, key: string): (r: Option<Json>)
    ensures r.Some? ==> exists i | 0 <= i < |members| :: members[i] == (key, r.value)
  {
    if members == [] then None
    else if members[0].0 == key then
      assert members[0] == (key, members[0].1);
      Some(members[0].1)
    else
      var rest := Lookup(members[1..], key);
      assert rest.Some? ==> exists i | 1 <= i < |members| :: members[i] == (key, rest.value) by {
        if rest.Some? {
          var i :| 0 <= i < |members[1..]| && members[1..][i] == (key, rest.value);
          assert members[i + 1] == (key, rest.value);
        }
      }
      rest
  }

  lemma {:induction false} LookupMeans(members: seq<(string, Json)>, key: string)
    ensures Lookup(members, key).None? <==> forall m <- members :: m.0 != key
    ensures Lookup(members, key).Some? ==> (key, Lookup(members, key).value) in members
  {
    if members != [] {
      LookupMeans(members[1..], key);
      assert members == [members[0]] + members[1..];
    }
  }

  function Get(node: Json, key: string): (r: Option<Json>)
    ensures r.Some? ==> r.value < node
  {
    if node.Obj? then Lookup(node.members, key) else None
  }

  /** `Object.entries`: an array enumerates its indices. */
  function Entries(node: Json): (r: seq<(string, Json)>)
    ensures forall e <- r :: e.1 < node
  {
    match node
    case Obj(members) => members
    case Arr(items) => seq(|items|, i requires 0 <= i < |items| => (Decimal.OfNat(i), items[i]))
    case _ => []
  }

  predicate IsTokenChar(c: char) {
    c in "!#$%&'*+-.^_`|~" || '0' <= c <= '9' || 'a' <= c <= 'z' || 'A' <= c <= 'Z'
  }

  /** A token of section 5.6.2 of RFC 9110. */
  predicate IsToken(s: string) {
    s != "" && forall c <- s :: IsTokenChar(c)
  }

  const DELIMITERS := "\"(),/:;<=>?@[\\]{}"

  /** As section 5.6.2 of RFC 9110 puts it: any visible character of ASCII but the delimiters. */
  lemma TokenCharsAreVisible(c: char)
    ensures IsTokenChar(c) <==> '!' <= c <= '~' && c !in DELIMITERS
  {
  }

  function LowerChar(c: char): char {
    if 'A' <= c <= 'Z' then (c as int + 32) as char else c
  }

  /** `toLowerCase` on a token, which is plain ASCII. */
  function Lower(s: string): string {
    seq(|s|, i requires 0 <= i < |s| => LowerChar(s[i]))
  }

  /** The same letter, or one is an ASCII capital and the other its small form, 32 above it. */
  predicate SameLetter(a: char, b: char) {
    || a == b
    || ('A' <= a <= 'Z' && b as int == a as int + 32)
    || ('A' <= b <= 'Z' && a as int == b as int + 32)
  }

  /** Two names that differ in case at most, letter by letter. */
  predicate SameButForCase(s: string, t: string) {
    |s| == |t| && forall i | 0 <= i < |s| :: SameLetter(s[i], t[i])
  }

  lemma LowerComparesCase(s: string, t: string)
    ensures Lower(s) == Lower(t) <==> SameButForCase(s, t)
  {
    if Lower(s) == Lower(t) {
      forall i | 0 <= i < |s|
        ensures SameLetter(s[i], t[i])
      {
        assert Lower(s)[i] == Lower(t)[i];
      }
    }
  }

  // ----- Where the walk goes -----

  /** One step down: through a member of `properties`, or under another keyword. */
  datatype Hop = Property(key: string) | Under(keyword: string)

  function Segment(h: Hop): string {
    match h
    case Property(key) => key
    case Under(keyword) => "<" + keyword + ">"
  }

  function Path(chain: seq<Hop>): seq<string> {
    seq(|chain|, i requires 0 <= i < |chain| => Segment(chain[i]))
  }

  predicate IsPropertyChain(chain: seq<Hop>) {
    chain != [] && forall h <- chain :: h.Property?
  }

  function PropertyEntries(node: Json): (r: seq<(string, Json)>)
    ensures forall e <- r :: e.1 < node
  {
    var properties := Get(node, "properties");
    if properties.Some? then Entries(properties.value) else []
  }

  function Branches(node: Json, keyword: string): (r: seq<Json>)
    ensures forall b <- r :: b < node
  {
    var sub := Get(node, keyword);
    if sub.None? then []
    else if sub.value.Arr? then sub.value.items
    else if sub.value.Obj? && keyword in OBJECT_VALUED_KEYWORDS then
      seq(|sub.value.members|, i requires 0 <= i < |sub.value.members| => sub.value.members[i].1)
    else [sub.value]
  }

  /** A node of the schema and the way the walk reaches it. */
  datatype Place = Place(chain: seq<Hop>, node: Json)

  function Through(hops: seq<(string, Json)>): (r: seq<(Hop, Json)>)
    ensures |r| == |hops| && forall i | 0 <= i < |r| :: r[i] == (Property(hops[i].0), hops[i].1)
  {
    seq(|hops|, i requires 0 <= i < |hops| => (Property(hops[i].0), hops[i].1))
  }

  function UnderEach(keyword: string, branches: seq<Json>): (r: seq<(Hop, Json)>)
    ensures |r| == |branches| && forall i | 0 <= i < |r| :: r[i] == (Under(keyword), branches[i])
  {
    seq(|branches|, i requires 0 <= i < |branches| => (Under(keyword), branches[i]))
  }

  /** The children under each keyword, keyword by keyword. */
  function KeywordGroups(node: Json): (r: seq<seq<(Hop, Json)>>)
    ensures AllBelow(node, r)
    ensures |r| == |NON_REACHABLE_KEYWORDS|
    ensures forall i | 0 <= i < |r| ::
      r[i] == UnderEach(NON_REACHABLE_KEYWORDS[i], Branches(node, NON_REACHABLE_KEYWORDS[i]))
  {
    seq(|NON_REACHABLE_KEYWORDS|, i requires 0 <= i < |NON_REACHABLE_KEYWORDS| =>
      UnderEach(NON_REACHABLE_KEYWORDS[i], Branches(node, NON_REACHABLE_KEYWORDS[i])))
  }

  function Flatten<T>(groups: seq<seq<T>>): seq<T> {
    if groups == [] then [] else groups[0] + Flatten(groups[1..])
  }

  ghost predicate AllBelow(node: Json, groups: seq<seq<(Hop, Json)>>) {
    forall g <- groups :: forall c <- g :: c.1 < node
  }

  lemma {:induction false} FlattenBelow(node: Json, groups: seq<seq<(Hop, Json)>>)
    requires AllBelow(node, groups)
    ensures forall c: (Hop, Json) <- Flatten(groups) :: c.1 < node
  {
    if groups != [] {
      assert groups == [groups[0]] + groups[1..];
      assert groups[0] in groups && forall g <- groups[1..] :: g in groups;
      FlattenBelow(node, groups[1..]);
    }
  }

  /** The children under all the keywords. */
  function KeywordChildren(node: Json): (r: seq<(Hop, Json)>)
    ensures forall c <- r :: c.1 < node
  {
    FlattenBelow(node, KeywordGroups(node));
    Flatten(KeywordGroups(node))
  }

  /** The children of a node in the order the walk takes them. */
  function Children(node: Json): (r: seq<(Hop, Json)>)
    ensures forall c <- r :: c.1 < node
  {
    Through(PropertyEntries(node)) + KeywordChildren(node)
  }

  /** Every node at or below this one, parents first, children in order. */
  function Places(node: Json, chain: seq<Hop>): seq<Place>
    decreases node, 1, 0
  {
    [Place(chain, node)] + PlacesOf(node, Children(node), chain)
  }

  function PlacesOf(parent: Json, children: seq<(Hop, Json)>, chain: seq<Hop>): seq<Place>
    requires forall c <- children :: c.1 < parent
    decreases parent, 0, |children|
  {
    if children == [] then [] else
    Places(children[0].1, chain + [children[0].0]) + PlacesOf(parent, children[1..], chain)
  }

  /** A child by name: a member of the `properties` object. */
  ghost predicate IsProperty(node: Json, key: string, child: Json) {
    var properties := Get(node, "properties");
    properties.Some? && (key, child) in Entries(properties.value)
  }

  /**
   * A child under a keyword: each item of an array; each value of an object that maps names to schemas; else itself.
   */
  ghost predicate IsUnder(node: Json, keyword: string, child: Json) {
    var sub := Get(node, keyword);
    && keyword in NON_REACHABLE_KEYWORDS && sub.Some?
    && match sub.value
       case Arr(items) => child in items
       case Obj(members) =>
         if keyword in OBJECT_VALUED_KEYWORDS then exists m <- members :: m.1 == child else child == sub.value
       case _ => child == sub.value
  }

  /** Where the walk goes from a node, hop by hop. */
  lemma ChildMeans(node: Json, hop: Hop, child: Json)
    ensures
      (hop, child) in Children(node) <==>
      match hop
      case Property(key) => IsProperty(node, key, child)
      case Under(keyword) => IsUnder(node, keyword, child)
  {
    InFlatten(KeywordGroups(node), (hop, child));
    var entries := PropertyEntries(node);
    assert (hop, child) in Through(entries) <==> hop.Property? && (hop.key, child) in entries by {
      if hop.Property? && (hop.key, child) in entries {
        var i :| 0 <= i < |entries| && entries[i] == (hop.key, child);
        assert Through(entries)[i] == (hop, child);
      }
    }
    GroupsMean(node, hop, child);
  }

  lemma GroupsMean(node: Json, hop: Hop, child: Json)
    ensures
      (exists g <- KeywordGroups(node) :: (hop, child) in g) <==> hop.Under? && IsUnder(node, hop.keyword, child)
  {
    var groups := KeywordGroups(node);
    if g :| g in groups && (hop, child) in g {
      var i :| 0 <= i < |groups| && groups[i] == g;
      UnderMeans(node, NON_REACHABLE_KEYWORDS[i], hop, child);
    }
    if hop.Under? && IsUnder(node, hop.keyword, child) {
      var i :| 0 <= i < |NON_REACHABLE_KEYWORDS| && NON_REACHABLE_KEYWORDS[i] == hop.keyword;
      UnderMeans(node, hop.keyword, hop, child);
      assert groups[i] in groups;
    }
  }

  lemma UnderMeans(node: Json, keyword: string, hop: Hop, child: Json)
    requires keyword in NON_REACHABLE_KEYWORDS
    ensures
      (hop, child) in UnderEach(keyword, Branches(node, keyword)) <==>
      hop == Under(keyword) && IsUnder(node, keyword, child)
  {
    var branches := Branches(node, keyword);
    assert child in branches <==> IsUnder(node, keyword, child) by {
      BranchMeans(node, keyword, child);
    }
    if hop == Under(keyword) && child in branches {
      var i :| 0 <= i < |branches| && branches[i] == child;
      assert UnderEach(keyword, branches)[i] == (hop, child);
    }
  }

  lemma BranchMeans(node: Json, keyword: string, child: Json)
    requires keyword in NON_REACHABLE_KEYWORDS
    ensures child in Branches(node, keyword) <==> IsUnder(node, keyword, child)
  {
    var sub, branches := Get(node, keyword), Branches(node, keyword);
    if sub.Some? && sub.value.Obj? && keyword in OBJECT_VALUED_KEYWORDS {
      if m :| m in sub.value.members && m.1 == child {
        var i :| 0 <= i < |sub.value.members| && sub.value.members[i] == m;
        assert branches[i] == child;
      }
    }
  }

  lemma {:induction false} InFlatten<T>(groups: seq<seq<T>>, x: T)
    ensures x in Flatten(groups) <==> exists g <- groups :: x in g
  {
    if groups != [] {
      InFlatten(groups[1..], x);
      assert groups == [groups[0]] + groups[1..];
    }
  }

  // ----- What a valid schema is -----

  predicate IsAnnotated(p: Place) {
    Get(p.node, X_MCP_HEADER_KEY).Some?
  }

  function TypeName(node: Json): Option<string> {
    var t := Get(node, "type");
    if t.Some? && t.value.Str? then Some(t.value.s) else None
  }

  /** The three demands on an annotated node taken alone. */
  predicate IsWellPlaced(p: Place)
    requires IsAnnotated(p)
  {
    var raw := Get(p.node, X_MCP_HEADER_KEY).value;
    && IsPropertyChain(p.chain)
    && raw.Str? && IsToken(raw.s)
    && TypeName(p.node).Some? && TypeName(p.node).value in PERMITTED_TYPES
  }

  function DeclarationAt(p: Place): Declaration
    requires IsAnnotated(p) && IsWellPlaced(p)
  {
    Declaration(Path(p.chain), Get(p.node, X_MCP_HEADER_KEY).value.s, TypeName(p.node).value)
  }

  function Annotated(places: seq<Place>): (r: seq<Place>)
    ensures forall p <- r :: IsAnnotated(p)
  {
    if places == [] then []
    else (if IsAnnotated(places[0]) then [places[0]] else []) + Annotated(places[1..])
  }

  function Declarations(annotated: seq<Place>): (r: seq<Declaration>)
    requires forall p <- annotated :: IsAnnotated(p) && IsWellPlaced(p)
    ensures |r| == |annotated| && forall i | 0 <= i < |r| :: r[i] == DeclarationAt(annotated[i])
  {
    seq(|annotated|, i requires 0 <= i < |annotated| => DeclarationAt(annotated[i]))
  }

  ghost predicate NamesUnique(declarations: seq<Declaration>) {
    forall i, j | 0 <= i < j < |declarations| ::
      !SameButForCase(declarations[i].headerName, declarations[j].headerName)
  }

  /** The whole demand: every annotated node is well placed, and no two names agree case-insensitively. */
  ghost predicate IsValidSchema(schema: Json) {
    var annotated := Annotated(Places(schema, []));
    (forall p <- annotated :: IsWellPlaced(p)) && NamesUnique(Declarations(annotated))
  }

  // ----- The scan -----

  function FaultAt(p: Place): Option<Fault>
    requires IsAnnotated(p)
  {
    var raw := Get(p.node, X_MCP_HEADER_KEY).value;
    if !IsPropertyChain(p.chain) then Some(NotReachable(Path(p.chain)))
    else if !raw.Str? || raw.s == "" then Some(NotAString(Path(p.chain)))
    else if !IsToken(raw.s) then Some(NotAToken(Path(p.chain), raw.s))
    else if TypeName(p.node).None? || TypeName(p.node).value !in PERMITTED_TYPES then
      Some(NotPrimitive(Path(p.chain), TypeName(p.node)))
    else None
  }

  /** Which fault an annotated node has: the first of four that applies. */
  lemma FaultMeans(p: Place)
    requires IsAnnotated(p)
    ensures
      var raw := Get(p.node, X_MCP_HEADER_KEY).value;
      var reached := p.chain != [] && forall h <- p.chain :: h.Property?;
      var named := raw.Str? && raw.s != "";
      && (FaultAt(p) == Some(NotReachable(Path(p.chain))) <==> !reached)
      && (FaultAt(p) == Some(NotAString(Path(p.chain))) <==> reached && !named)
      && (named ==> (FaultAt(p) == Some(NotAToken(Path(p.chain), raw.s)) <==> reached && !IsToken(raw.s)))
      && (FaultAt(p) == Some(NotPrimitive(Path(p.chain), TypeName(p.node))) <==>
            reached && named && IsToken(raw.s) && !IsWellPlaced(p))
  {
  }

  /** The path of a declaration names the properties passed through, in order, and nothing else. */
  lemma DeclaredPathIsChain(p: Place)
    requires IsAnnotated(p) && IsWellPlaced(p)
    ensures
      var d := DeclarationAt(p);
      && |d.path| == |p.chain| > 0 && (forall i | 0 <= i < |d.path| :: p.chain[i] == Property(d.path[i]))
      && Get(p.node, "x-mcp-header") == Some(Str(d.headerName)) && Get(p.node, "type") == Some(Str(d.typ))
  {
  }

  function Prior(declarations: seq<Declaration>, name: string): (r: Option<string>)
    ensures r.None? <==> forall d <- declarations :: !SameButForCase(d.headerName, name)
    ensures r.Some? ==> SameButForCase(r.value, name) && exists d <- declarations :: d.headerName == r.value
  {
    if declarations == [] then None
    else if SameButForCase(declarations[0].headerName, name) then Some(declarations[0].headerName)
    else
      var rest := Prior(declarations[1..], name);
      assert declarations == [declarations[0]] + declarations[1..];
      rest
  }

  /** The walk over a list of places, carrying the declarations so far. */
  function Check(places: seq<Place>, declared: seq<Declaration>): Scan {
    if places == [] then Valid(declared) else
    var p := places[0];
    if !IsAnnotated(p) then Check(places[1..], declared)
    else if FaultAt(p).Some? then Invalid(FaultAt(p).value)
    else
      var d := DeclarationAt(p);
      var prior := Prior(declared, d.headerName);
      if prior.Some? then Invalid(NotUnique(d.headerName, prior.value)) else Check(places[1..], declared + [d])
  }

  lemma {:induction false} CheckConcat(xs: seq<Place>, ys: seq<Place>, declared: seq<Declaration>)
    ensures
      Check(xs + ys, declared) ==
      (match Check(xs, declared) case Valid(ds) => Check(ys, ds) case Invalid(f) => Invalid(f))
  {
    if xs == [] {
      assert xs + ys == ys;
    } else {
      assert (xs + ys)[1..] == xs[1..] + ys;
      var p := xs[0];
      if !IsAnnotated(p) {
        CheckConcat(xs[1..], ys, declared);
      } else if FaultAt(p).None? && Prior(declared, DeclarationAt(p).headerName).None? {
        CheckConcat(xs[1..], ys, declared + [DeclarationAt(p)]);
      }
    }
  }

  lemma {:induction false} PlacesOfConcat(parent: Json, xs: seq<(Hop, Json)>, ys: seq<(Hop, Json)>, chain: seq<Hop>)
    requires forall c <- xs + ys :: c.1 < parent
    requires forall c <- xs :: c.1 < parent
    requires forall c <- ys :: c.1 < parent
    ensures PlacesOf(parent, xs + ys, chain) == PlacesOf(parent, xs, chain) + PlacesOf(parent, ys, chain)
  {
    if xs == [] {
      assert xs + ys == ys;
    } else {
      assert (xs + ys)[1..] == xs[1..] + ys;
      PlacesOfConcat(parent, xs[1..], ys, chain);
    }
  }

  // ----- The walk, child by child -----

  /** Checking everything below some children of a node. */
  function CheckChildren(parent: Json, children: seq<(Hop, Json)>, chain: seq<Hop>, declared: seq<Declaration>): Scan
    requires forall c <- children :: c.1 < parent
  {
    Check(PlacesOf(parent, children, chain), declared)
  }

  lemma CheckChildrenConcat(
    parent: Json, xs: seq<(Hop, Json)>, ys: seq<(Hop, Json)>, all: seq<(Hop, Json)>, chain: seq<Hop>,
    declared: seq<Declaration>)
    requires all == xs + ys
    requires forall c <- all :: c.1 < parent
    ensures forall c <- xs :: c.1 < parent
    ensures forall c <- ys :: c.1 < parent
    ensures
      CheckChildren(parent, all, chain, declared) ==
      (match CheckChildren(parent, xs, chain, declared)
       case Valid(ds) => CheckChildren(parent, ys, chain, ds)
       case Invalid(f) => Invalid(f))
  {
    assert forall c <- xs :: c in all;
    assert forall c <- ys :: c in all;
    PlacesOfConcat(parent, xs, ys, chain);
    CheckConcat(PlacesOf(parent, xs, chain), PlacesOf(parent, ys, chain), declared);
  }

  lemma CheckOneChild(parent: Json, child: (Hop, Json), chain: seq<Hop>, declared: seq<Declaration>)
    requires child.1 < parent
    ensures CheckChildren(parent, [child], chain, declared) == Check(Places(child.1, chain + [child.0]), declared)
  {
    assert [child][1..] == [];
    assert PlacesOf(parent, [child], chain) == Places(child.1, chain + [child.0]) + [];
    assert Places(child.1, chain + [child.0]) + [] == Places(child.1, chain + [child.0]);
  }

  lemma CheckNode(node: Json, chain: seq<Hop>, declared: seq<Declaration>)
    ensures
      Check(Places(node, chain), declared) ==
      (match Check([Place(chain, node)], declared)
       case Valid(ds) => CheckChildren(node, Children(node), chain, ds)
       case Invalid(f) => Invalid(f))
  {
    CheckConcat([Place(chain, node)], PlacesOf(node, Children(node), chain), declared);
  }

  lemma {:induction false} FlattenConcat<T>(xs: seq<seq<T>>, ys: seq<seq<T>>)
    ensures Flatten(xs + ys) == Flatten(xs) + Flatten(ys)
  {
    if xs == [] {
      assert xs + ys == ys;
    } else {
      assert (xs + ys)[1..] == xs[1..] + ys;
      FlattenConcat(xs[1..], ys);
    }
  }
}
