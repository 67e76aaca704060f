/** The scan as the program runs it, and what its answer means. */
module HeaderScanner {
  import opened Options
  import opened Json
  import opened HeaderScan

  /** The two locals the recursive walk closes over. */
  class Walk {
    var declarations: seq<Declaration>
    var seenLower: map<string, string>

    /** The map holds each declared name under its lower-case form, and nothing else. */
    ghost predicate Consistent()
      reads this
    {
      && (forall d <- declarations ::
            Lower(d.headerName) in seenLower && seenLower[Lower(d.headerName)] == d.headerName)
      && (forall l <- seenLower :: exists d <- declarations :: Lower(d.headerName) == l)
    }

    constructor ()
      ensures Consistent() && declarations == []
    {
      declarations, seenLower := [], map[];
    }

    method Visit(node: Json, path: seq<string>, reachable: bool, ghost chain: seq<Hop>) returns (fault: Option<Fault>)
      requires Consistent()
      requires path == Path(chain) && (reachable <==> AllProperties(chain))
      modifies this
      ensures Answer(fault, declarations) == Check(Places(node, chain), old(declarations))
      ensures fault.None? ==> Consistent()
      decreases node, 1
    {
      CheckNode(node, chain, declarations);
      fault := VisitNode(node, path, reachable, chain);
      if fault.Some? {
        return;
      }
      ghost var properties, others := Through(PropertyEntries(node)), KeywordChildren(node);
      CheckChildrenConcat(node, properties, others, Children(node), chain, declarations);
      fault := VisitProperties(node, PropertyEntries(node), path, reachable, chain);
      if fault.Some? {
        return;
      }
      fault := VisitKeywords(node, path, chain);
    }

    /** The annotation of the node itself. */
    method VisitNode(node: Json, path: seq<string>, reachable: bool, ghost chain: seq<Hop>)
      returns (fault: Option<Fault>)
      requires Consistent()
      requires path == Path(chain) && (reachable <==> AllProperties(chain))
      modifies this
      ensures Answer(fault, declarations) == Check([Place(chain, node)], old(declarations))
      ensures fault.None? ==> Consistent()
    {
      ghost var p := Place(chain, node);
      assert [p][1..] == [];
      var raw := Get(node, X_MCP_HEADER_KEY);
      if raw.None? {
        return None;
      }
      if !reachable || |path| == 0 {
        return Some(NotReachable(path));
      }
      if !raw.value.Str? || |raw.value.s| == 0 {
        return Some(NotAString(path));
      }
      var name := raw.value.s;
      if !IsToken(name) {
        return Some(NotAToken(path, name));
      }
      var typ := TypeName(node);
      if typ.None? || typ.value !in PERMITTED_TYPES {
        return Some(NotPrimitive(path, typ));
      }
      var lower := Lower(name);
      PriorIsSeen(name);
      if lower in seenLower {
        return Some(NotUnique(name, seenLower[lower]));
      }
      seenLower := seenLower[lower := name];
      declarations := declarations + [Declaration(path, name, typ.value)];
      assert declarations[|declarations| - 1].headerName == name;
      assert forall d <- old(declarations) :: d in declarations;
      return None;
    }

    lemma PriorIsSeen(name: string)
      requires Consistent()
      ensures Lower(name) in seenLower <==> Prior(declarations, name).Some?
      ensures Lower(name) in seenLower ==> Prior(declarations, name).value == seenLower[Lower(name)]
    {
      forall d | d in declarations
        ensures Lower(d.headerName) == Lower(name) <==> SameButForCase(d.headerName, name)
      {
        LowerComparesCase(d.headerName, name);
      }
    }

    method VisitProperties(
        node: Json, entries: seq<(string, Json)>, path: seq<string>, reachable: bool, ghost chain: seq<Hop>)
      returns (fault: Option<Fault>)
      requires Consistent()
      requires forall e <- entries :: e.1 < node
      requires path == Path(chain) && (reachable <==> AllProperties(chain))
      modifies this
      ensures Answer(fault, declarations) == CheckChildren(node, Through(entries), chain, old(declarations))
      ensures fault.None? ==> Consistent()
      decreases node, 0, 1
    {
      ghost var children := Through(entries);
      for i := 0 to |entries|
        invariant Consistent()
        invariant Valid(declarations) == CheckChildren(node, children[..i], chain, old(declarations))
      {
        ExtendChain(chain, Property(entries[i].0));
        OneMoreChild(node, children, i, chain, old(declarations));
        fault := Visit(entries[i].1, path + [entries[i].0], reachable, chain + [Property(entries[i].0)]);
        if fault.Some? {
          FaultStops(node, children, i, chain, old(declarations));
          return;
        }
      }
      assert children[..|entries|] == children;
      return None;
    }

    method VisitKeywords(node: Json, path: seq<string>, ghost chain: seq<Hop>) returns (fault: Option<Fault>)
      requires Consistent()
      requires path == Path(chain)
      modifies this
      ensures Answer(fault, declarations) == CheckChildren(node, KeywordChildren(node), chain, old(declarations))
      ensures fault.None? ==> Consistent()
      decreases node, 0, 1
    {
      ghost var groups := KeywordGroups(node);
      for i := 0 to |NON_REACHABLE_KEYWORDS|
        invariant Consistent()
        invariant forall c: (Hop, Json) <- Flatten(groups[..i]) :: c.1 < node
        invariant Valid(declarations) == CheckChildren(node, Flatten(groups[..i]), chain, old(declarations))
      {
        OneMoreGroup(node, i);
        CheckChildrenConcat(node, Flatten(groups[..i]), groups[i], Flatten(groups[..i + 1]), chain, old(declarations));
        fault := VisitBranches(node, NON_REACHABLE_KEYWORDS[i], path, chain);
        if fault.Some? {
          CheckChildrenConcat(
            node, Flatten(groups[..i + 1]), Flatten(groups[i + 1..]), Flatten(groups), chain, old(declarations));
          return;
        }
      }
      assert groups[..|groups|] == groups;
      return None;
    }

    method VisitBranches(node: Json, keyword: string, path: seq<string>, ghost chain: seq<Hop>)
      returns (fault: Option<Fault>)
      requires Consistent()
      requires path == Path(chain)
      modifies this
      ensures
        Answer(fault, declarations) ==
        CheckChildren(node, UnderEach(keyword, Branches(node, keyword)), chain, old(declarations))
      ensures fault.None? ==> Consistent()
      decreases node, 0, 0
    {
      var branches := Branches(node, keyword);
      ghost var children := UnderEach(keyword, branches);
      for i := 0 to |branches|
        invariant Consistent()
        invariant Valid(declarations) == CheckChildren(node, children[..i], chain, old(declarations))
      {
        ExtendChain(chain, Under(keyword));
        OneMoreChild(node, children, i, chain, old(declarations));
        fault := Visit(branches[i], path + ["<" + keyword + ">"], false, chain + [Under(keyword)]);
        if fault.Some? {
          FaultStops(node, children, i, chain, old(declarations));
          return;
        }
      }
      assert children[..|branches|] == children;
      return None;
    }
  }

  function Answer(fault: Option<Fault>, declarations: seq<Declaration>): Scan {
    if fault.None? then Valid(declarations) else Invalid(fault.value)
  }

  predicate AllProperties(chain: seq<Hop>) {
    forall h <- chain :: h.Property?
  }

  lemma ExtendChain(chain: seq<Hop>, hop: Hop)
    ensures Path(chain + [hop]) == Path(chain) + [Segment(hop)]
    ensures AllProperties(chain + [hop]) <==> AllProperties(chain) && hop.Property?
  {
    var longer := chain + [hop];
    assert longer[|chain|] == hop;
    assert forall h <- chain :: h in longer;
  }

  /** Checking one more child continues from what the children before it declared. */
  lemma OneMoreChild(node: Json, children: seq<(Hop, Json)>, i: nat, chain: seq<Hop>, declared: seq<Declaration>)
    requires i < |children| && forall c <- children :: c.1 < node
    ensures forall c <- children[..i] :: c.1 < node
    ensures forall c <- children[..i + 1] :: c.1 < node
    ensures
      CheckChildren(node, children[..i + 1], chain, declared) ==
      (match CheckChildren(node, children[..i], chain, declared)
       case Valid(ds) => Check(Places(children[i].1, chain + [children[i].0]), ds)
       case Invalid(f) => Invalid(f))
  {
    CheckChildrenConcat(node, children[..i], [children[i]], children[..i + 1], chain, declared);
    match CheckChildren(node, children[..i], chain, declared)
    case Valid(ds) => CheckOneChild(node, children[i], chain, ds);
    case Invalid(_) =>
  }

  /** A fault below one child is the answer for them all. */
  lemma FaultStops(node: Json, children: seq<(Hop, Json)>, i: nat, chain: seq<Hop>, declared: seq<Declaration>)
    requires i < |children| && forall c <- children :: c.1 < node
    requires forall c <- children[..i + 1] :: c.1 < node
    ensures
      var scan := CheckChildren(node, children[..i + 1], chain, declared);
      scan.Invalid? ==> CheckChildren(node, children, chain, declared) == scan
  {
    CheckChildrenConcat(node, children[..i + 1], children[i + 1..], children, chain, declared);
  }

  lemma OneMoreGroup(node: Json, i: nat)
    requires i < |KeywordGroups(node)|
    ensures
      var groups := KeywordGroups(node);
      && Flatten(groups[..i + 1]) == Flatten(groups[..i]) + groups[i]
      && Flatten(groups) == Flatten(groups[..i + 1]) + Flatten(groups[i + 1..])
      && (forall c: (Hop, Json) <- Flatten(groups[..i + 1]) :: c.1 < node)
      && (forall c: (Hop, Json) <- Flatten(groups) :: c.1 < node)
  {
    var groups := KeywordGroups(node);
    FlattenCut(groups[..i + 1], groups[..i], [groups[i]]);
    FlattenOne(groups[i]);
    FlattenCut(groups, groups[..i + 1], groups[i + 1..]);
    GroupsDescend(node, groups[..i + 1]);
    GroupsDescend(node, groups);
  }

  lemma FlattenCut<T>(groups: seq<seq<T>>, xs: seq<seq<T>>, ys: seq<seq<T>>)
    requires groups == xs + ys
    ensures Flatten(groups) == Flatten(xs) + Flatten(ys)
  {
    FlattenConcat(xs, ys);
  }

  lemma FlattenOne<T>(group: seq<T>)
    ensures Flatten([group]) == group
  {
    assert [group][1..] == [];
  }

  lemma GroupsDescend(node: Json, groups: seq<seq<(Hop, Json)>>)
    requires forall g <- groups :: g in KeywordGroups(node)
    ensures forall c: (Hop, Json) <- Flatten(groups) :: c.1 < node
  {
    FlattenBelow(node, groups);
  }

  method ScanXMcpHeaderDeclarations(inputSchema: Json) returns (scan: Scan)
    ensures scan == Check(Places(inputSchema, []), [])
  {
    var walk := new Walk();
    var fault := walk.Visit(inputSchema, [], true, []);
    scan := if fault.None? then Valid(walk.declarations) else Invalid(fault.value);
  }
}
