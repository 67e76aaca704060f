/** What the scan's answer means. */
module HeaderScanMeaning {
  import opened Options
  import opened Json
  import opened HeaderScan

  lemma NoFaultIsWellPlaced(p: Place)
    requires IsAnnotated(p)
    ensures FaultAt(p).None? <==> IsWellPlaced(p)
  {
  }

  ghost predicate AllWellPlaced(annotated: seq<Place>)
    requires forall p <- annotated :: IsAnnotated(p)
  {
    forall p <- annotated :: IsWellPlaced(p)
  }

  lemma AddName(declared: seq<Declaration>, d: Declaration)
    requires NamesUnique(declared)
    ensures NamesUnique(declared + [d]) <==> Prior(declared, d.headerName).None?
  {
    var longer := declared + [d];
    if NamesUnique(longer) {
      forall e | e in declared
        ensures !SameButForCase(e.headerName, d.headerName)
      {
        var i :| 0 <= i < |declared| && declared[i] == e;
        assert longer[i] == e && longer[|declared|] == d;
      }
    }
  }

  lemma UniquePrefix(xs: seq<Declaration>, ys: seq<Declaration>)
    requires NamesUnique(xs + ys)
    ensures NamesUnique(xs)
  {
    forall i, j | 0 <= i < j < |xs|
      ensures !SameButForCase(xs[i].headerName, xs[j].headerName)
    {
      assert (xs + ys)[i] == xs[i] && (xs + ys)[j] == xs[j];
    }
  }

  /** The rules a list of annotated places must meet after some names are already taken. */
  ghost predicate Obeys(annotated: seq<Place>, declared: seq<Declaration>)
    requires forall p <- annotated :: IsAnnotated(p)
  {
    AllWellPlaced(annotated) && NamesUnique(declared + Declarations(annotated))
  }

  lemma AnnotatedFirst(p: Place, rest: seq<Place>, declared: seq<Declaration>)
    requires IsAnnotated(p) && forall q <- rest :: IsAnnotated(q)
    requires IsWellPlaced(p) && AllWellPlaced(rest)
    ensures AllWellPlaced([p] + rest)
    ensures declared + Declarations([p] + rest) == (declared + [DeclarationAt(p)]) + Declarations(rest)
  {
  }

  lemma ObeysFirst(p: Place, rest: seq<Place>, declared: seq<Declaration>)
    requires IsAnnotated(p) && (forall q <- rest :: IsAnnotated(q)) && NamesUnique(declared)
    ensures
      Obeys([p] + rest, declared) <==>
      && FaultAt(p).None?
      && Prior(declared, DeclarationAt(p).headerName).None?
      && Obeys(rest, declared + [DeclarationAt(p)])
  {
    NoFaultIsWellPlaced(p);
    assert p in [p] + rest && forall q <- rest :: q in [p] + rest;
    if IsWellPlaced(p) && AllWellPlaced(rest) {
      AnnotatedFirst(p, rest, declared);
      AddName(declared, DeclarationAt(p));
      if Obeys([p] + rest, declared) {
        UniquePrefix(declared + [DeclarationAt(p)], Declarations(rest));
      }
    }
  }

  ghost predicate CheckedTo(places: seq<Place>, declared: seq<Declaration>) {
    var annotated := Annotated(places);
    if Obeys(annotated, declared)
    then Check(places, declared) == Valid(declared + Declarations(annotated))
    else Check(places, declared).Invalid?
  }

  lemma CheckDeclared(p: Place, rest: seq<Place>, declared: seq<Declaration>)
    requires IsAnnotated(p) && FaultAt(p).None? && Prior(declared, DeclarationAt(p).headerName).None?
    requires NamesUnique(declared) && CheckedTo(rest, declared + [DeclarationAt(p)])
    ensures CheckedTo([p] + rest, declared)
  {
    var places := [p] + rest;
    var next := declared + [DeclarationAt(p)];
    assert places[1..] == rest;
    assert Check(places, declared) == Check(rest, next);
    assert Annotated(places) == [p] + Annotated(rest);
    ObeysFirst(p, Annotated(rest), declared);
    if Obeys(Annotated(rest), next) {
      NoFaultIsWellPlaced(p);
      AnnotatedFirst(p, Annotated(rest), declared);
    }
  }

  lemma CheckRefused(p: Place, rest: seq<Place>, declared: seq<Declaration>)
    requires IsAnnotated(p) && (FaultAt(p).Some? || Prior(declared, DeclarationAt(p).headerName).Some?)
    requires NamesUnique(declared)
    ensures CheckedTo([p] + rest, declared)
  {
    assert ([p] + rest)[1..] == rest;
    assert Annotated([p] + rest) == [p] + Annotated(rest);
    ObeysFirst(p, Annotated(rest), declared);
  }

  lemma {:induction false} CheckMeans(places: seq<Place>, declared: seq<Declaration>)
    requires NamesUnique(declared)
    ensures CheckedTo(places, declared)
  {
    if places == [] {
      assert declared + Declarations([]) == declared;
    } else {
      var p, rest := places[0], places[1..];
      assert places == [p] + rest;
      if !IsAnnotated(p) {
        CheckMeans(rest, declared);
        assert Annotated(places) == Annotated(rest);
        assert Check(places, declared) == Check(rest, declared);
      } else if FaultAt(p).Some? || Prior(declared, DeclarationAt(p).headerName).Some? {
        CheckRefused(p, rest, declared);
      } else {
        AddName(declared, DeclarationAt(p));
        CheckMeans(rest, declared + [DeclarationAt(p)]);
        CheckDeclared(p, rest, declared);
      }
    }
  }

  lemma CheckedFromNothing(places: seq<Place>, nothing: seq<Declaration>)
    requires nothing == []
    ensures
      var annotated := Annotated(places);
      if AllWellPlaced(annotated) && NamesUnique(Declarations(annotated))
      then Check(places, nothing) == Valid(Declarations(annotated))
      else Check(places, nothing).Invalid?
  {
    CheckMeans(places, nothing);
    if AllWellPlaced(Annotated(places)) {
      assert nothing + Declarations(Annotated(places)) == Declarations(Annotated(places));
    }
  }

  /**
   * The scan says `valid` exactly when every annotated node the walk reaches is reached through `properties` alone,
   * below the root, carries a token and a primitive type, and no two names agree case-insensitively. The declarations
   * are then exactly those nodes, once each, in walk order.
   */
  lemma ScanMeans(schema: Json)
    ensures Check(Places(schema, []), []).Valid? <==> IsValidSchema(schema)
    ensures
      IsValidSchema(schema) ==>
      Check(Places(schema, []), []) == Valid(Declarations(Annotated(Places(schema, []))))
  {
    CheckedFromNothing(Places(schema, []), []);
  }

  /** The reported fault is the one at the first place that breaks a rule: everything before it checks. */
  lemma {:induction false} FirstFault(places: seq<Place>, declared: seq<Declaration>) returns (i: nat)
    requires Check(places, declared).Invalid?
    ensures i < |places| && IsAnnotated(places[i]) && Check(places[..i], declared).Valid?
    ensures
      var before := Check(places[..i], declared).declarations;
      var fault := Check(places, declared).fault;
      if FaultAt(places[i]).Some? then fault == FaultAt(places[i]).value
      else
        var name := DeclarationAt(places[i]).headerName;
        Prior(before, name).Some? && fault == NotUnique(name, Prior(before, name).value)
  {
    var p := places[0];
    if IsAnnotated(p) && (FaultAt(p).Some? || Prior(declared, DeclarationAt(p).headerName).Some?) {
      i := 0;
    } else {
      var next := if IsAnnotated(p) then declared + [DeclarationAt(p)] else declared;
      var j := FirstFault(places[1..], next);
      i := j + 1;
      assert places[..i][1..] == places[1..][..j];
    }
  }

  // ----- The walk misses nothing -----

  /** A chain leads from one node to another when each hop is to a child. */
  ghost predicate Leads(start: Json, chain: seq<Hop>, end: Json)
    decreases |chain|
  {
    if chain == [] then start == end
    else exists c <- Children(start) :: c.0 == chain[0] && Leads(c.1, chain[1..], end)
  }

  /** The walk reaches a node by a chain exactly when the chain leads there. */
  lemma {:induction false} PlacesAreLedTo(start: Json, base: seq<Hop>, chain: seq<Hop>, end: Json)
    ensures Place(base + chain, end) in Places(start, base) <==> Leads(start, chain, end)
    decreases start, 1, 0
  {
    PlacesOfAreLedTo(start, Children(start), base, chain, end);
    LeadsByChild(start, chain, end);
    SamePlace(base, chain, start, end);
    assert Places(start, base) == [Place(base, start)] + PlacesOf(start, Children(start), base);
  }

  lemma LeadsByChild(start: Json, chain: seq<Hop>, end: Json)
    ensures Leads(start, chain, end) <==> (chain == [] && start == end) || SomeLeads(Children(start), chain, end)
  {
  }

  lemma SamePlace(base: seq<Hop>, chain: seq<Hop>, start: Json, end: Json)
    ensures Place(base + chain, end) == Place(base, start) <==> chain == [] && start == end
  {
    if base + chain == base {
      assert |chain| == 0;
    }
    assert base + [] == base;
  }

  lemma {:induction false} PlacesOfAreLedTo(
    parent: Json, children: seq<(Hop, Json)>, base: seq<Hop>, chain: seq<Hop>, end: Json)
    requires forall c <- children :: c.1 < parent
    ensures Place(base + chain, end) in PlacesOf(parent, children, base) <==> SomeLeads(children, chain, end)
    decreases parent, 0, |children|
  {
    if children != [] {
      ChildIsLedTo(children[0], base, chain, end);
      PlacesOfAreLedTo(parent, children[1..], base, chain, end);
      FirstLeads(children, chain, end);
    }
  }

  lemma FirstLeads(children: seq<(Hop, Json)>, chain: seq<Hop>, end: Json)
    requires children != []
    ensures
      SomeLeads(children, chain, end) <==> LeadsThrough(children[0], chain, end) || SomeLeads(children[1..], chain, end)
  {
    assert children == [children[0]] + children[1..];
  }

  ghost predicate SomeLeads(children: seq<(Hop, Json)>, chain: seq<Hop>, end: Json) {
    exists c <- children :: LeadsThrough(c, chain, end)
  }

  ghost predicate LeadsThrough(c: (Hop, Json), chain: seq<Hop>, end: Json) {
    chain != [] && c.0 == chain[0] && Leads(c.1, chain[1..], end)
  }

  lemma {:induction false} ChildIsLedTo(c: (Hop, Json), base: seq<Hop>, chain: seq<Hop>, end: Json)
    ensures Place(base + chain, end) in Places(c.1, base + [c.0]) <==> LeadsThrough(c, chain, end)
    decreases c.1, 2, 0
  {
    StartsWithHop(base, c.0, chain);
    if chain != [] && chain[0] == c.0 {
      PlacesAreLedTo(c.1, base + [c.0], chain[1..], end);
    } else {
      AllExtend(c.1, base + [c.0], Place(base + chain, end));
    }
  }

  lemma StartsWithHop(base: seq<Hop>, hop: Hop, chain: seq<Hop>)
    ensures base + [hop] <= base + chain ==> chain != [] && chain[0] == hop
    ensures chain != [] && chain[0] == hop ==> base + [hop] + chain[1..] == base + chain
  {
    if base + [hop] <= base + chain {
      assert (base + chain)[|base|] == (base + [hop])[|base|];
    }
  }

  /** Every place below a node is reached by extending the node's chain. */
  lemma {:induction false} AllExtend(start: Json, base: seq<Hop>, p: Place)
    ensures p in Places(start, base) ==> base <= p.chain
    decreases start, 1, 0
  {
    AllExtendOf(start, Children(start), base, p);
  }

  lemma {:induction false} AllExtendOf(parent: Json, children: seq<(Hop, Json)>, base: seq<Hop>, p: Place)
    requires forall c <- children :: c.1 < parent
    ensures p in PlacesOf(parent, children, base) ==> base <= p.chain
    decreases parent, 0, |children|
  {
    if children != [] {
      AllExtend(children[0].1, base + [children[0].0], p);
      AllExtendOf(parent, children[1..], base, p);
    }
  }
}
