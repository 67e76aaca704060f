/** The `Mcp-Param-*` headers of one tool call. */
module HeaderParams {
  import opened Options
  import opened Json
  import opened HeaderScan
  import opened HeaderScanMeaning
  import HeaderScanner
  import Decimal
  import HeaderEncoding

  const MCP_PARAM_HEADER_PREFIX := "Mcp-Param-"
  const MAX_SAFE_INTEGER: int := 9_007_199_254_740_991

  /** `None` is a value that is not mirrored. */
  function PrimitiveToString(value: Json): Option<string> {
    match value
    case Str(s) => Some(s)
    case Bool(b) => Some(if b then "true" else "false")
    case Num(Whole(n)) => if -MAX_SAFE_INTEGER <= n <= MAX_SAFE_INTEGER then Some(Decimal.OfInt(n)) else None
    case Num(Fraction(text)) => Some(text)
    case _ => None
  }

  /** `node[key]`: an array answers to its indices and to `length`; a primitive is never asked. */
  function Member(node: Json, key: string): Option<Json> {
    if node.Arr? && key == "length" then Some(Num(Whole(|node.items|))) else Lookup(Entries(node), key)
  }

  function AtPath(node: Json, path: seq<string>): Option<Json>
    decreases |path|
  {
    if path == [] then Some(node) else
    var next := Member(node, path[0]);
    if next.None? then None else AtPath(next.value, path[1..])
  }

  method ValueAtPath(root: Json, path: seq<string>) returns (value: Option<Json>)
    ensures value == AtPath(root, path)
  {
    value := Some(root);
    for i := 0 to |path|
      invariant AtPath(root, path) == (if value.None? then None else AtPath(value.value, path[i..]))
    {
      if value.None? {
        return;
      }
      assert path[i..][1..] == path[i + 1..];
      value := Member(value.value, path[i]);
    }
  }

  /** What is mirrored, and as which text: a string as it is, a boolean by name, a safe integer in plain decimal. */
  lemma PrimitiveText(value: Json, text: string)
    ensures
      PrimitiveToString(value) == Some(text) <==>
      || value == Str(text)
      || (value == Bool(true) && text == "true")
      || (value == Bool(false) && text == "false")
      || (exists n: int | -MAX_SAFE_INTEGER <= n <= MAX_SAFE_INTEGER :: value == Num(Whole(n)) && IsDecimalOf(text, n))
      || value == Num(Fraction(text))
  {
    if value.Num? && value.x.Whole? {
      var n := value.x.n;
      DecimalText(n);
      if IsDecimalOf(text, n) {
        SameDecimal(text, n);
      }
    }
  }

  /** Plain decimal notation: a minus sign if negative, then digits without a leading zero, worth the number. */
  predicate IsDecimalOf(text: string, n: int) {
    if n < 0 then |text| > 1 && text[0] == '-' && IsPlain(text[1..]) && Decimal.ValueOf(text[1..]) == -n
    else IsPlain(text) && Decimal.ValueOf(text) == n
  }

  predicate IsPlain(digits: string) {
    digits != "" && (forall c <- digits :: Decimal.IsDigit(c)) && (digits[0] == '0' ==> |digits| == 1)
  }

  lemma DecimalText(n: int)
    ensures IsDecimalOf(Decimal.OfInt(n), n)
  {
    var m := if n < 0 then -n else n;
    Decimal.OfNatIsPlain(m);
    Decimal.ValueOfNat(m);
    assert n < 0 ==> Decimal.OfInt(n)[1..] == Decimal.OfNat(m);
  }

  lemma SameDecimal(text: string, n: int)
    requires IsDecimalOf(text, n)
    ensures text == Decimal.OfInt(n)
  {
    if n < 0 {
      PlainIsOfNat(text[1..]);
      assert text == "-" + text[1..];
    } else {
      PlainIsOfNat(text);
    }
  }

  lemma {:induction false} PlainIsOfNat(digits: string)
    requires IsPlain(digits)
    ensures 0 <= Decimal.ValueOf(digits) && digits == Decimal.OfNat(Decimal.ValueOf(digits))
    ensures digits[0] != '0' ==> Decimal.ValueOf(digits) > 0
    decreases |digits|
  {
    var n := |digits| - 1;
    var front, d := digits[..n], digits[n] as int - '0' as int;
    assert digits == front + [digits[n]] && digits[n] in digits;
    if n == 0 {
      assert Decimal.ValueOf(front) == 0;
    } else {
      assert front[0] == digits[0] && forall c <- front :: c in digits;
      PlainIsOfNat(front);
      OneMoreDigit(Decimal.ValueOf(front), d);
    }
  }

  lemma OneMoreDigit(v: nat, d: nat)
    requires v > 0 && d < 10
    ensures Decimal.OfNat(10 * v + d) == Decimal.OfNat(v) + [Decimal.Digit(d)]
  {
    assert (10 * v + d) / 10 == v && (10 * v + d) % 10 == d;
  }

  /** A path reaches what its keys lead to one after another: the empty path the root, a longer one from its prefix. */
  lemma {:induction false} PathReaches(node: Json, path: seq<string>, key: string)
    ensures AtPath(node, []) == Some(node)
    ensures
      AtPath(node, path + [key]) ==
      if AtPath(node, path).None? then None else Member(AtPath(node, path).value, key)
    decreases |path|
  {
    var longer := path + [key];
    if path == [] {
      assert longer[1..] == [];
    } else {
      assert longer[1..] == path[1..] + [key];
      var next := Member(node, path[0]);
      if next.Some? {
        PathReaches(next.value, path[1..], key);
      }
    }
  }

  /**
   * A member of an object is one of its own, by name; of an array, an element or the length; of anything else, none.
   */
  lemma MemberMeans(node: Json, key: string)
    ensures node.Obj? ==>
      && (Member(node, key).None? <==> forall m <- node.members :: m.0 != key)
      && (Member(node, key).Some? ==> (key, Member(node, key).value) in node.members)
    ensures node.Arr? && key == "length" ==> Member(node, key) == Some(Num(Whole(|node.items|)))
    ensures node.Arr? && key != "length" ==>
      && (forall i | 0 <= i < |node.items| && key == Decimal.OfNat(i) :: Member(node, key) == Some(node.items[i]))
      && (Member(node, key).Some? ==> exists i | 0 <= i < |node.items| :: key == Decimal.OfNat(i))
    ensures !node.Obj? && !node.Arr? ==> Member(node, key) == None
  {
    if node.Obj? {
      LookupMeans(node.members, key);
    } else if node.Arr? && key != "length" {
      ElementMeans(node, key);
    }
  }

  lemma ElementMeans(node: Json, key: string)
    requires node.Arr?
    ensures forall i | 0 <= i < |node.items| && key == Decimal.OfNat(i) ::
      Lookup(Entries(node), key) == Some(node.items[i])
    ensures Lookup(Entries(node), key).Some? ==> exists i | 0 <= i < |node.items| :: key == Decimal.OfNat(i)
  {
    var entries := Entries(node);
    LookupMeans(entries, key);
    if Lookup(entries, key).Some? {
      var k :| 0 <= k < |entries| && entries[k] == (key, Lookup(entries, key).value);
      assert key == Decimal.OfNat(k);
    }
    forall i | 0 <= i < |node.items| && key == Decimal.OfNat(i)
      ensures Lookup(entries, key) == Some(node.items[i])
    {
      assert entries[i].0 == key && entries[i] in entries;
      var k :| 0 <= k < |entries| && entries[k] == (key, Lookup(entries, key).value);
      Decimal.OfNatInjective(i, k);
    }
  }

  function Mirrored(d: Declaration, args: Json): Option<string> {
    var value := AtPath(args, d.path);
    if value.None? then None else PrimitiveToString(value.value)
  }

  function HeaderName(d: Declaration): string {
    MCP_PARAM_HEADER_PREFIX + d.headerName
  }

  /** The headers in declaration order, one for each argument that has a value to mirror. */
  function MirroredEntries(declarations: seq<Declaration>, args: Json): seq<(string, string)> {
    if declarations == [] then [] else
    var d := declarations[|declarations| - 1];
    var value := Mirrored(d, args);
    MirroredEntries(declarations[..|declarations| - 1], args) +
    if value.Some? then [(HeaderName(d), HeaderEncoding.Encode(value.value))] else []
  }

  /** A record filled entry by entry: a later one of the same name overwrites an earlier. */
  function Record(entries: seq<(string, string)>): map<string, string> {
    if entries == [] then map[] else
    Record(entries[..|entries| - 1])[entries[|entries| - 1].0 := entries[|entries| - 1].1]
  }

  function HeadersOf(declarations: seq<Declaration>, args: Json): map<string, string> {
    Record(MirroredEntries(declarations, args))
  }

  lemma HeadersOfOneMore(front: seq<Declaration>, d: Declaration, args: Json)
    ensures
      var before, value := HeadersOf(front, args), Mirrored(d, args);
      HeadersOf(front + [d], args) ==
      if value.Some? then before[HeaderName(d) := HeaderEncoding.Encode(value.value)] else before
  {
    var all, entries := front + [d], MirroredEntries(front, args);
    assert all[..|all| - 1] == front;
    if Mirrored(d, args).Some? {
      var e := (HeaderName(d), HeaderEncoding.Encode(Mirrored(d, args).value));
      assert MirroredEntries(all, args) == entries + [e];
      assert (entries + [e])[..|entries|] == entries;
    } else {
      assert MirroredEntries(all, args) == entries;
    }
  }

  method BuildMcpParamHeaders(declarations: seq<Declaration>, args: Json) returns (headers: map<string, string>)
    ensures headers == HeadersOf(declarations, args)
  {
    headers := map[];
    for i := 0 to |declarations|
      invariant headers == HeadersOf(declarations[..i], args)
    {
      var d := declarations[i];
      HeadersOfOneMore(declarations[..i], d, args);
      assert declarations[..i + 1] == declarations[..i] + [d];
      var raw := ValueAtPath(args, d.path);
      if raw.None? || raw.value == Null {
        continue;
      }
      var stringValue := PrimitiveToString(raw.value);
      if stringValue.None? {
        continue;
      }
      var encoded := HeaderEncoding.EncodeMcpParamValue(stringValue.value);
      headers := headers[HeaderName(d) := encoded];
    }
    assert declarations[..|declarations|] == declarations;
  }

  // ----- Over a valid scan -----

  lemma HeaderNamesDiffer(declarations: seq<Declaration>, i: nat, j: nat)
    requires NamesUnique(declarations) && i < j < |declarations|
    ensures !SameButForCase(HeaderName(declarations[i]), HeaderName(declarations[j]))
  {
    TailDiffers(declarations[i].headerName, declarations[j].headerName);
  }

  lemma TailDiffers(a: string, b: string)
    ensures
      SameButForCase(MCP_PARAM_HEADER_PREFIX + a, MCP_PARAM_HEADER_PREFIX + b) ==> SameButForCase(a, b)
  {
    var n := |MCP_PARAM_HEADER_PREFIX|;
    if SameButForCase(MCP_PARAM_HEADER_PREFIX + a, MCP_PARAM_HEADER_PREFIX + b) {
      forall i | 0 <= i < |a|
        ensures SameLetter(a[i], b[i])
      {
        assert (MCP_PARAM_HEADER_PREFIX + a)[n + i] == a[i] && (MCP_PARAM_HEADER_PREFIX + b)[n + i] == b[i];
      }
    }
  }

  ghost predicate NamesDiffer(entries: seq<(string, string)>) {
    forall i, j | 0 <= i < j < |entries| :: !SameButForCase(entries[i].0, entries[j].0)
  }

  ghost predicate HoldsExactly(headers: map<string, string>, entries: seq<(string, string)>) {
    && |headers| == |entries|
    && (forall e <- entries :: e.0 in headers && headers[e.0] == e.1)
    && (forall name <- headers :: (name, headers[name]) in entries)
  }

  lemma {:induction false} RecordKeepsAll(entries: seq<(string, string)>)
    requires NamesDiffer(entries)
    ensures HoldsExactly(Record(entries), entries)
  {
    if entries != [] {
      var n := |entries| - 1;
      var front, last := entries[..n], entries[n];
      RecordKeepsAll(front);
      assert entries == front + [last];
      HoldsOneMore(Record(front), front, last);
    }
  }

  lemma InOneMore<T>(s: seq<T>, last: T)
    ensures forall x :: x in s + [last] <==> x in s || x == last
  {
  }

  lemma KeyOneMore(headers: map<string, string>, key: string, value: string)
    requires key !in headers
    ensures |headers[key := value]| == |headers| + 1
  {
    assert headers[key := value].Keys == headers.Keys + {key};
  }

  lemma HoldsOneMore(headers: map<string, string>, entries: seq<(string, string)>, last: (string, string))
    requires HoldsExactly(headers, entries) && forall e <- entries :: e.0 != last.0
    ensures HoldsExactly(headers[last.0 := last.1], entries + [last])
  {
    var more := headers[last.0 := last.1];
    InOneMore(entries, last);
    KeyOneMore(headers, last.0, last.1);
    forall name | name in more
      ensures (name, more[name]) in entries + [last]
    {
      assert (name, more[name]) == if name == last.0 then last else (name, headers[name]);
    }
  }

  /** Which declaration an entry comes from. */
  lemma {:induction false} EntriesComeFromDeclarations(declarations: seq<Declaration>, args: Json, e: (string, string))
    ensures e in MirroredEntries(declarations, args) <==> exists d <- declarations :: IsEntryOf(d, args, e)
  {
    if declarations != [] {
      var n := |declarations| - 1;
      var front, d := declarations[..n], declarations[n];
      EntriesComeFromDeclarations(front, args, e);
      assert declarations == front + [d];
      EntryOfOneMore(front, d, args, e);
      assert e in MirroredEntries(declarations, args) <==> e in MirroredEntries(front, args) || IsEntryOf(d, args, e);
    }
  }

  lemma EntryOfOneMore(front: seq<Declaration>, d: Declaration, args: Json, e: (string, string))
    ensures
      (exists x <- front + [d] :: IsEntryOf(x, args, e)) <==>
      (exists x <- front :: IsEntryOf(x, args, e)) || IsEntryOf(d, args, e)
  {
    assert d in front + [d] && forall x <- front :: x in front + [d];
  }

  predicate IsEntryOf(d: Declaration, args: Json, e: (string, string)) {
    Mirrored(d, args).Some? && e == (HeaderName(d), HeaderEncoding.Encode(Mirrored(d, args).value))
  }

  lemma {:induction false} EntryNamesDiffer(declarations: seq<Declaration>, args: Json)
    requires NamesUnique(declarations)
    ensures NamesDiffer(MirroredEntries(declarations, args))
  {
    if declarations != [] {
      var n := |declarations| - 1;
      var before := MirroredEntries(declarations[..n], args);
      EntryNamesDiffer(declarations[..n], args);
      forall i | 0 <= i < |before|
        ensures !SameButForCase(before[i].0, HeaderName(declarations[n]))
      {
        EntriesComeFromDeclarations(declarations[..n], args, before[i]);
        var j :| 0 <= j < n && HeaderName(declarations[j]) == before[i].0;
        HeaderNamesDiffer(declarations, j, n);
      }
    }
  }

  /**
   * Over a valid scan no header overwrites another: the record holds every mirrored declaration's header and nothing
   * else, and no two names coincide once case is ignored, as an HTTP receiver does.
   */
  lemma OneHeaderPerMirrored(declarations: seq<Declaration>, args: Json)
    requires NamesUnique(declarations)
    ensures HoldsExactly(HeadersOf(declarations, args), MirroredEntries(declarations, args))
    ensures
      var headers := HeadersOf(declarations, args);
      forall a, b | a in headers && b in headers && a != b :: !SameButForCase(a, b)
  {
    var headers, entries := HeadersOf(declarations, args), MirroredEntries(declarations, args);
    EntryNamesDiffer(declarations, args);
    RecordKeepsAll(entries);
    forall a, b | a in headers && b in headers && a != b
      ensures !SameButForCase(a, b)
    {
      var i :| 0 <= i < |entries| && entries[i] == (a, headers[a]);
      var j :| 0 <= j < |entries| && entries[j] == (b, headers[b]);
    }
  }

  /** A receiver reads back from each header the string form of the argument it mirrors, whatever its characters. */
  lemma HeaderCarriesArgument(declarations: seq<Declaration>, args: Json, d: Declaration)
    requires NamesUnique(declarations) && d in declarations && Mirrored(d, args).Some?
    ensures HeaderName(d) in HeadersOf(declarations, args)
    ensures HeaderEncoding.Decode(HeadersOf(declarations, args)[HeaderName(d)]) == Mirrored(d, args)
    ensures HeaderEncoding.IsFieldValue(HeadersOf(declarations, args)[HeaderName(d)])
  {
    var value := Mirrored(d, args).value;
    var e := (HeaderName(d), HeaderEncoding.Encode(value));
    OneHeaderPerMirrored(declarations, args);
    EntriesComeFromDeclarations(declarations, args, e);
    assert IsEntryOf(d, args, e);
    HeaderEncoding.EncodeRoundTrip(value);
    HeaderEncoding.EncodeIsLegal(value);
  }

  /** The headers of a call to a tool: none for an invalid schema, otherwise one per annotated argument with a value. */
  method McpParamHeadersForTool(inputSchema: Json, args: Json) returns (headers: map<string, string>)
    ensures IsValidSchema(inputSchema) ==>
      HoldsExactly(headers, MirroredEntries(Declarations(Annotated(Places(inputSchema, []))), args))
    ensures forall a, b | a in headers && b in headers && a != b :: !SameButForCase(a, b)
    ensures !IsValidSchema(inputSchema) ==> headers == map[]
  {
    var scan := HeaderScanner.ScanXMcpHeaderDeclarations(inputSchema);
    ScanMeans(inputSchema);
    if !scan.Valid? || |scan.declarations| == 0 {
      return map[];
    }
    headers := BuildMcpParamHeaders(scan.declarations, args);
    OneHeaderPerMirrored(scan.declarations, args);
  }
}
