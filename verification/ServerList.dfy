/**
 * The converters between the `mcp.json` on disk and the entries the screens edit, for one server at a time, and the
 * split of its secrets into a keychain record. A record keeps its keys in enumeration order, each once.
 */
module ServerList {
  import opened Options
  import opened Text

  type Pairs = seq<(string, string)>

  const DEFAULT_TASK_TTL_MS: int := 60000
  const DEFAULT_MAX_FETCH_REQUESTS: int := 1000
  const DEFAULT_PROTOCOL_ERA := "legacy"
  const DEFAULT_MODERN_LOG_LEVEL := "debug"

  const PROTOCOL_ERAS: set<string> := {"legacy", "auto", "modern"}
  const MODERN_LOG_LEVELS: set<string> :=
    {"off", "debug", "info", "notice", "warning", "error", "critical", "alert", "emergency"}

  /** `extra` stands for whatever other fields a root carries. */
  datatype Root = Root(uri: string, name: Option<string>, extra: string)

  datatype OAuth = OAuth(
    clientId: Option<string>,
    clientSecret: Option<string>,
    scopes: Option<string>,
    authorizationParams: Option<Pairs>,
    authorizationUrl: Option<string>,
    tokenUrl: Option<string>,
    onInsufficientScope: Option<string>,
    enterpriseManaged: Option<bool>)

  const NO_OAUTH: OAuth := OAuth(None, None, None, None, None, None, None, None)

  /** The Inspector's own keys on a stored entry. */
  datatype Fields = Fields(
    headers: Option<Pairs>,
    metadata: Option<Pairs>,
    protocolEra: Option<string>,
    modernLogLevel: Option<string>,
    connectionTimeout: Option<int>,
    requestTimeout: Option<int>,
    taskTtl: Option<int>,
    autoRefreshOnListChanged: Option<bool>,
    paginatedLists: Option<bool>,
    advertisedExtensions: Option<Pairs>,
    maxFetchRequests: Option<int>,
    oauth: Option<OAuth>,
    roots: Option<seq<Root>>)

  const NO_FIELDS: Fields := Fields(None, None, None, None, None, None, None, None, None, None, None, None, None)

  datatype TypeKey = Absent | NotText | Named(name: string)

  /** A stored entry: the transport's own keys, `rest` for those nobody here reads, and the Inspector's. */
  datatype Stored = Stored(typ: TypeKey, env: Option<Pairs>, cwd: Option<string>, rest: string, fields: Fields)

  /** The form's shape: absent settings have become the values the form shows. */
  datatype Settings = Settings(
    headers: Pairs,
    env: Pairs,
    metadata: Pairs,
    connectionTimeout: int,
    requestTimeout: int,
    taskTtl: int,
    autoRefreshOnListChanged: bool,
    paginatedLists: bool,
    maxFetchRequests: int,
    roots: seq<Root>,
    protocolEra: Option<string>,
    modernLogLevel: Option<string>,
    advertisedExtensions: Option<Pairs>,
    oauthClientId: Option<string>,
    oauthClientSecret: Option<string>,
    oauthScopes: Option<string>,
    oauthAuthorizationParams: Option<Pairs>,
    oauthAuthorizationUrl: Option<string>,
    oauthTokenUrl: Option<string>,
    oauthOnInsufficientScope: Option<string>,
    enterpriseManaged: bool,
    cwd: Option<string>)

  datatype Entry = Entry(id: string, config: Stored, settings: Option<Settings>)

  // ----- Records -----

  predicate IsBlank(s: string) {
    Trim(s) == ""
  }

  predicate KeysDistinct(pairs: Pairs) {
    forall i, j | 0 <= i < j < |pairs| :: pairs[i].0 != pairs[j].0
  }

  /** Assignment to a record: an existing key keeps its place. */
  function Put(record: Pairs, key: string, value: string): Pairs {
    if record == [] then [(key, value)]
    else if record[0].0 == key then [(key, value)] + record[1..]
    else [record[0]] + Put(record[1..], key, value)
  }

  /** Rows collapsed into a record, rows with a blank key dropped. */
  function ToRecord(pairs: Pairs): Pairs {
    if pairs == [] then [] else
    var before := ToRecord(pairs[..|pairs| - 1]);
    var (key, value) := pairs[|pairs| - 1];
    if IsBlank(key) then before else Put(before, key, value)
  }

  method EnvPairsToRecord(pairs: Pairs) returns (out: Pairs)
    ensures out == ToRecord(pairs)
  {
    out := [];
    for i := 0 to |pairs|
      invariant out == ToRecord(pairs[..i])
    {
      assert pairs[..i + 1][..i] == pairs[..i];
      var (key, value) := pairs[i];
      if IsBlank(key) {
        continue;
      }
      out := Put(out, key, value);
    }
    assert pairs[..|pairs|] == pairs;
  }

  function DropBlank(pairs: Pairs): Pairs {
    if pairs == [] then [] else
    DropBlank(pairs[..|pairs| - 1]) + (if IsBlank(pairs[|pairs| - 1].0) then [] else [pairs[|pairs| - 1]])
  }

  function NonEmpty<T(==)>(s: seq<T>): Option<seq<T>> {
    if s == [] then None else Some(s)
  }

  /** Truthiness of an optional string. */
  function Truthy(s: Option<string>): Option<string> {
    if s == Some("") then None else s
  }

  function CleanRoot(r: Root): Root {
    r.(name := if r.name.Some? then Truthy(Some(Trim(r.name.value))) else None)
  }

  function CleanRoots(roots: seq<Root>): seq<Root> {
    if roots == [] then [] else
    CleanRoots(roots[..|roots| - 1]) +
    (if IsBlank(roots[|roots| - 1].uri) then [] else [CleanRoot(roots[|roots| - 1])])
  }

  function CleanUrl(url: Option<string>): Option<string> {
    if url.None? then None else Truthy(Some(Trim(url.value)))
  }

  // ----- Disk to form -----

  function ReadFields(f: Fields, env: Option<Pairs>, cwd: Option<string>): Option<Settings> {
    if f == NO_FIELDS && env.None? && cwd.None? then None else
    var o := f.oauth.GetOr(NO_OAUTH);
    Some(Settings(
      f.headers.GetOr([]),
      env.GetOr([]),
      f.metadata.GetOr([]),
      f.connectionTimeout.GetOr(0),
      f.requestTimeout.GetOr(0),
      f.taskTtl.GetOr(DEFAULT_TASK_TTL_MS),
      f.autoRefreshOnListChanged.GetOr(false),
      f.paginatedLists.GetOr(false),
      f.maxFetchRequests.GetOr(DEFAULT_MAX_FETCH_REQUESTS),
      f.roots.GetOr([]),
      if f.protocolEra.Some? && f.protocolEra.value in PROTOCOL_ERAS then f.protocolEra else None,
      if f.modernLogLevel.Some? && f.modernLogLevel.value in MODERN_LOG_LEVELS then f.modernLogLevel else None,
      NonEmpty(f.advertisedExtensions.GetOr([])),
      Truthy(o.clientId),
      Truthy(o.clientSecret),
      Truthy(o.scopes),
      NonEmpty(DropBlank(o.authorizationParams.GetOr([]))),
      CleanUrl(o.authorizationUrl),
      CleanUrl(o.tokenUrl),
      Truthy(o.onInsufficientScope),
      o.enterpriseManaged == Some(true),
      Truthy(cwd)))
  }

  function NormalizeType(t: TypeKey): TypeKey {
    match t
    case Named("http") => Named("streamable-http")
    case Named(name) => if name in {"stdio", "sse", "streamable-http"} then t else Named("stdio")
    case _ => Named("stdio")
  }

  function ReadEntry(id: string, raw: Stored): Entry {
    var config := raw.(typ := NormalizeType(raw.typ), fields := NO_FIELDS);
    var stdio := config.typ == Named("stdio");
    Entry(id, config,
          ReadFields(raw.fields, if stdio then config.env else None, if stdio then config.cwd else None))
  }

  // ----- Form to disk -----

  function Positive(n: int): Option<int> {
    if n > 0 then Some(n) else None
  }

  function OnlyTrue(b: bool): Option<bool> {
    if b then Some(true) else None
  }

  function WriteOAuth(s: Settings): OAuth {
    OAuth(
      Truthy(s.oauthClientId),
      Truthy(s.oauthClientSecret),
      Truthy(s.oauthScopes),
      NonEmpty(ToRecord(s.oauthAuthorizationParams.GetOr([]))),
      CleanUrl(s.oauthAuthorizationUrl),
      CleanUrl(s.oauthTokenUrl),
      Truthy(s.oauthOnInsufficientScope),
      OnlyTrue(s.enterpriseManaged))
  }

  function WriteFields(s: Settings): Fields {
    Fields(
      NonEmpty(ToRecord(s.headers)),
      NonEmpty(DropBlank(s.metadata)),
      if s.protocolEra == Some(DEFAULT_PROTOCOL_ERA) then None else s.protocolEra,
      if s.modernLogLevel == Some(DEFAULT_MODERN_LOG_LEVEL) then None else s.modernLogLevel,
      Positive(s.connectionTimeout),
      Positive(s.requestTimeout),
      if s.taskTtl == DEFAULT_TASK_TTL_MS then None else Positive(s.taskTtl),
      OnlyTrue(s.autoRefreshOnListChanged),
      OnlyTrue(s.paginatedLists),
      NonEmpty(s.advertisedExtensions.GetOr([])),
      if s.maxFetchRequests == DEFAULT_MAX_FETCH_REQUESTS then None else Some(s.maxFetchRequests),
      if WriteOAuth(s) == NO_OAUTH then None else Some(WriteOAuth(s)),
      NonEmpty(CleanRoots(s.roots)))
  }

  function WriteEntry(e: Entry): Stored {
    if e.settings.None? then e.config else e.config.(fields := WriteFields(e.settings.value))
  }

  // ----- Reading then writing is a canonicalization -----

  function Canonical(id: string, raw: Stored): Stored {
    WriteEntry(ReadEntry(id, raw))
  }

  function CanonicalFields(f: Fields): Fields {
    var settings := ReadFields(f, Some([]), None).value;
    WriteFields(settings)
  }

  lemma {:induction false} PutFresh(record: Pairs, key: string, value: string)
    requires forall p <- record :: p.0 != key
    ensures Put(record, key, value) == record + [(key, value)]
  {
    if record != [] {
      PutFresh(record[1..], key, value);
    }
  }

  lemma LastKeyIsNew(front: Pairs, last: (string, string))
    requires KeysDistinct(front + [last])
    ensures KeysDistinct(front) && forall p <- front :: p.0 != last.0
  {
    var pairs := front + [last];
    assert pairs[|front|] == last;
    assert forall i | 0 <= i < |front| :: pairs[i] == front[i];
  }

  /** A record without blank keys collapses to itself. */
  lemma {:induction false} ToRecordStays(pairs: Pairs)
    requires KeysDistinct(pairs) && forall p <- pairs :: !IsBlank(p.0)
    ensures ToRecord(pairs) == pairs
  {
    if pairs != [] {
      var n := |pairs| - 1;
      var front, last := pairs[..n], pairs[n];
      assert pairs == front + [last] && last in pairs;
      assert forall p <- front :: p in pairs;
      LastKeyIsNew(front, last);
      ToRecordStays(front);
      PutFresh(front, last.0, last.1);
    }
  }

  lemma {:induction false} PutKeepsKeysDistinct(record: Pairs, key: string, value: string)
    requires KeysDistinct(record)
    ensures KeysDistinct(Put(record, key, value))
    ensures forall p <- Put(record, key, value) :: p == (key, value) || p in record
  {
    if record != [] && record[0].0 != key {
      PutKeepsKeysDistinct(record[1..], key, value);
      var rest := Put(record[1..], key, value);
      forall p | p in rest
        ensures p.0 != record[0].0
      {
        if p != (key, value) {
          var i :| 0 <= i < |record[1..]| && record[1..][i] == p;
          assert record[i + 1] == p;
        }
      }
    }
  }

  lemma {:induction false} ToRecordIsRecord(pairs: Pairs)
    ensures KeysDistinct(ToRecord(pairs))
    ensures forall p <- ToRecord(pairs) :: !IsBlank(p.0)
  {
    if pairs != [] {
      var n := |pairs| - 1;
      ToRecordIsRecord(pairs[..n]);
      PutKeepsKeysDistinct(ToRecord(pairs[..n]), pairs[n].0, pairs[n].1);
    }
  }

  lemma {:induction false} DropBlankSettles(pairs: Pairs)
    requires forall p <- pairs :: !IsBlank(p.0)
    ensures DropBlank(pairs) == pairs
  {
    if pairs != [] {
      DropBlankSettles(pairs[..|pairs| - 1]);
      assert pairs == pairs[..|pairs| - 1] + [pairs[|pairs| - 1]];
    }
  }

  lemma {:induction false} DropBlankDrops(pairs: Pairs)
    ensures forall p <- DropBlank(pairs) :: !IsBlank(p.0)
  {
    if pairs != [] {
      DropBlankDrops(pairs[..|pairs| - 1]);
    }
  }

  /** Collapsing rows twice is collapsing them once. */
  lemma ToRecordSettles(pairs: Pairs)
    ensures ToRecord(ToRecord(pairs)) == ToRecord(pairs)
    ensures DropBlank(ToRecord(pairs)) == ToRecord(pairs)
  {
    ToRecordIsRecord(pairs);
    ToRecordStays(ToRecord(pairs));
    DropBlankSettles(ToRecord(pairs));
  }

  // ----- What collapsing and cleaning do to each row -----

  /** The last row of its key. */
  ghost predicate IsLastOf(pairs: Pairs, i: nat, key: string, value: string) {
    i < |pairs| && pairs[i] == (key, value) && forall j | i < j < |pairs| :: pairs[j].0 != key
  }

  ghost predicate LastRowIs(pairs: Pairs, key: string, value: string) {
    exists i: nat :: IsLastOf(pairs, i, key, value)
  }

  lemma LastRowOfMore(front: Pairs, last: (string, string), key: string, value: string)
    ensures
      LastRowIs(front + [last], key, value) <==>
      if last.0 == key then last.1 == value else LastRowIs(front, key, value)
  {
    var more := front + [last];
    if last == (key, value) {
      assert IsLastOf(more, |front|, key, value);
    }
    if last.0 != key && LastRowIs(front, key, value) {
      var i: nat :| IsLastOf(front, i, key, value);
      assert IsLastOf(more, i, key, value);
    }
    if LastRowIs(more, key, value) {
      var i: nat :| IsLastOf(more, i, key, value);
      if i < |front| {
        assert more[|front|] == last;
        assert forall j | i < j < |front| :: more[j] == front[j];
        assert IsLastOf(front, i, key, value);
      }
    }
  }

  lemma {:induction false} PutHolds(record: Pairs, k: string, v: string, key: string, value: string)
    requires KeysDistinct(record)
    ensures
      (key, value) in Put(record, k, v) <==>
      if k == key then v == value else (key, value) in record
  {
    if record != [] {
      assert record == [record[0]] + record[1..];
      if record[0].0 == k {
        assert forall p <- record[1..] :: p.0 != k;
      } else {
        PutHolds(record[1..], k, v, key, value);
      }
    }
  }

  /** A record holds for each key that is not blank the value of the last row with that key. */
  lemma {:induction false} LastRowWins(pairs: Pairs, key: string, value: string)
    ensures (key, value) in ToRecord(pairs) <==> !IsBlank(key) && LastRowIs(pairs, key, value)
  {
    if pairs != [] {
      var n := |pairs| - 1;
      var front, last := pairs[..n], pairs[n];
      assert pairs == front + [last];
      LastRowWins(front, key, value);
      LastRowOfMore(front, last, key, value);
      ToRecordIsRecord(front);
      if !IsBlank(last.0) {
        PutHolds(ToRecord(front), last.0, last.1, key, value);
      }
    }
  }

  function Keys(pairs: Pairs): seq<string> {
    seq(|pairs|, i requires 0 <= i < |pairs| => pairs[i].0)
  }

  /** The keys that are not blank, each where it first stands. */
  function FirstKeys(pairs: Pairs): seq<string> {
    if pairs == [] then [] else
    var before, key := FirstKeys(pairs[..|pairs| - 1]), pairs[|pairs| - 1].0;
    if IsBlank(key) || key in before then before else before + [key]
  }

  lemma {:induction false} PutKeepsOrder(record: Pairs, key: string, value: string)
    ensures Keys(Put(record, key, value)) == if key in Keys(record) then Keys(record) else Keys(record) + [key]
  {
    if record != [] {
      assert Keys(record) == [record[0].0] + Keys(record[1..]);
      if record[0].0 != key {
        PutKeepsOrder(record[1..], key, value);
        assert Keys(Put(record, key, value)) == [record[0].0] + Keys(Put(record[1..], key, value));
      }
    }
  }

  /** A repeated key keeps its first place. */
  lemma {:induction false} FirstPlaceStays(pairs: Pairs)
    ensures Keys(ToRecord(pairs)) == FirstKeys(pairs)
  {
    if pairs != [] {
      var n := |pairs| - 1;
      FirstPlaceStays(pairs[..n]);
      PutKeepsOrder(ToRecord(pairs[..n]), pairs[n].0, pairs[n].1);
    }
  }

  /** Rows are dropped one by one: exactly those with a blank key. */
  lemma {:induction false} DropBlankRows(xs: Pairs, ys: Pairs, p: (string, string))
    ensures DropBlank(xs + ys) == DropBlank(xs) + DropBlank(ys)
    ensures DropBlank([p]) == if IsBlank(p.0) then [] else [p]
    decreases |ys|
  {
    assert [p][..0] == [];
    if ys == [] {
      assert xs + ys == xs;
    } else {
      var n := |ys| - 1;
      assert (xs + ys)[..|xs + ys| - 1] == xs + ys[..n];
      DropBlankRows(xs, ys[..n], p);
    }
  }

  /**
   * Roots are cleaned one by one: one with a blank URI goes, any other keeps its URI and all but the whitespace around
   * its name, which goes altogether if it is blank.
   */
  lemma {:induction false} RootsAreCleanedEach(xs: seq<Root>, ys: seq<Root>, r: Root)
    ensures CleanRoots(xs + ys) == CleanRoots(xs) + CleanRoots(ys)
    ensures IsBlank(r.uri) ==> CleanRoots([r]) == []
    ensures !IsBlank(r.uri) ==>
      && |CleanRoots([r])| == 1 && CleanRoots([r])[0] == r.(name := CleanRoots([r])[0].name)
      && CleanRoots([r])[0].name ==
         if r.name.None? || IsBlank(r.name.value) then None else Some(Trim(r.name.value))
    decreases |ys|
  {
    assert [r][..0] == [];
    if ys == [] {
      assert xs + ys == xs;
    } else {
      var n := |ys| - 1;
      assert (xs + ys)[..|xs + ys| - 1] == xs + ys[..n];
      RootsAreCleanedEach(xs, ys[..n], r);
    }
  }

  /** A stored `type` reads as itself when it is one of three; "http" is an alias; anything else is stdio. */
  lemma TypesRead(name: string)
    ensures NormalizeType(Named("http")) == Named("streamable-http")
    ensures name in ["stdio", "sse", "streamable-http"] ==> NormalizeType(Named(name)) == Named(name)
    ensures name !in ["stdio", "sse", "streamable-http", "http"] ==> NormalizeType(Named(name)) == Named("stdio")
    ensures NormalizeType(Absent) == NormalizeType(NotText) == Named("stdio")
  {
    var known := ["stdio", "sse", "streamable-http", "http"];
    assert known[0] == "stdio" && known[1] == "sse" && known[2] == "streamable-http" && known[3] == "http";
    var three := ["stdio", "sse", "streamable-http"];
    assert three[0] == "stdio" && three[1] == "sse" && three[2] == "streamable-http";
  }

  /** Each stored field shows under its own name, as stored; the absent ones as what the program takes them for. */
  lemma FieldsShowAsStored(f: Fields, env: Option<Pairs>, cwd: Option<string>)
    requires ReadFields(f, env, cwd).Some?
    ensures
      var s := ReadFields(f, env, cwd).value;
      && (f.headers.Some? ==> s.headers == f.headers.value) && (f.headers.None? ==> s.headers == [])
      && (f.metadata.Some? ==> s.metadata == f.metadata.value) && (f.metadata.None? ==> s.metadata == [])
      && (f.roots.Some? ==> s.roots == f.roots.value) && (f.roots.None? ==> s.roots == [])
      && s.connectionTimeout == f.connectionTimeout.GetOr(0) && s.requestTimeout == f.requestTimeout.GetOr(0)
      && s.taskTtl == f.taskTtl.GetOr(60000) && s.maxFetchRequests == f.maxFetchRequests.GetOr(1000)
      && s.autoRefreshOnListChanged == f.autoRefreshOnListChanged.GetOr(false)
      && s.paginatedLists == f.paginatedLists.GetOr(false)
    ensures
      var s := ReadFields(f, env, cwd).value;
      f.oauth.Some? ==>
        var o := f.oauth.value;
        && s.oauthClientId.GetOr("") == o.clientId.GetOr("") && s.oauthScopes.GetOr("") == o.scopes.GetOr("")
        && s.oauthClientSecret.GetOr("") == o.clientSecret.GetOr("")
        && s.oauthOnInsufficientScope.GetOr("") == o.onInsufficientScope.GetOr("")
        && (s.enterpriseManaged <==> o.enterpriseManaged == Some(true))
        && s.oauthAuthorizationUrl.GetOr("") == Trim(o.authorizationUrl.GetOr(""))
        && s.oauthTokenUrl.GetOr("") == Trim(o.tokenUrl.GetOr(""))
  {
  }

  predicate IsCleanRoot(r: Root) {
    !IsBlank(r.uri) && (r.name.Some? ==> r.name.value != "" && IsTrimmed(r.name.value))
  }

  lemma {:induction false} CleanRootsSettles(roots: seq<Root>)
    ensures forall r <- CleanRoots(roots) :: IsCleanRoot(r)
    ensures CleanRoots(CleanRoots(roots)) == CleanRoots(roots)
  {
    if roots != [] {
      CleanRootsSettles(roots[..|roots| - 1]);
    }
    CleanStays(CleanRoots(roots));
  }

  lemma CleanRootStays(r: Root)
    requires IsCleanRoot(r)
    ensures CleanRoot(r) == r
  {
  }

  lemma {:induction false} CleanStays(roots: seq<Root>)
    requires forall r <- roots :: IsCleanRoot(r)
    ensures CleanRoots(roots) == roots
  {
    if roots != [] {
      var n := |roots| - 1;
      var front, last := roots[..n], roots[n];
      assert forall r <- front :: r in roots;
      assert last in roots && roots == front + [last];
      CleanStays(front);
      CleanRootStays(last);
    }
  }

  lemma OAuthSettles(f: Fields)
    ensures
      var s := ReadFields(f, Some([]), None).value;
      var again := ReadFields(WriteFields(s), Some([]), None).value;
      WriteOAuth(again) == WriteOAuth(s)
  {
    var s := ReadFields(f, Some([]), None).value;
    ToRecordSettles(s.oauthAuthorizationParams.GetOr([]));
  }

  lemma FieldsSettle(f: Fields)
    ensures CanonicalFields(CanonicalFields(f)) == CanonicalFields(f)
  {
    var s := ReadFields(f, Some([]), None).value;
    ToRecordSettles(s.headers);
    DropBlankDrops(s.metadata);
    DropBlankSettles(DropBlank(s.metadata));
    CleanRootsSettles(s.roots);
    OAuthSettles(f);
  }

  /** The mirrored `env` and `cwd` are shown in the form and never written from it. */
  lemma MirrorsAreNotWritten(f: Fields, env: Option<Pairs>, cwd: Option<string>)
    requires ReadFields(f, env, cwd).Some?
    ensures WriteFields(ReadFields(f, env, cwd).value) == CanonicalFields(f)
  {
    var a, b := ReadFields(f, env, cwd).value, ReadFields(f, Some([]), None).value;
    assert a == b.(env := a.env, cwd := a.cwd);
    assert WriteOAuth(a) == WriteOAuth(b);
  }

  lemma NothingStoredNothingWritten()
    ensures CanonicalFields(NO_FIELDS) == NO_FIELDS
  {
  }

  /** Reading an entry and writing it back, twice, is doing it once: a second round trip changes nothing on disk. */
  lemma ReadWriteSettles(id: string, raw: Stored)
    ensures Canonical(id, Canonical(id, raw)) == Canonical(id, raw)
    ensures Canonical(id, raw).fields == CanonicalFields(raw.fields)
  {
    var once := Canonical(id, raw);
    CanonicalShape(id, raw);
    CanonicalShape(id, once);
    FieldsSettle(raw.fields);
  }

  lemma CanonicalShape(id: string, raw: Stored)
    ensures Canonical(id, raw) == raw.(typ := NormalizeType(raw.typ), fields := CanonicalFields(raw.fields))
  {
    var e := ReadEntry(id, raw);
    NothingStoredNothingWritten();
    if e.settings.Some? {
      var stdio := e.config.typ == Named("stdio");
      MirrorsAreNotWritten(raw.fields, if stdio then raw.env else None, if stdio then raw.cwd else None);
    }
  }

  /** `mcpServers`: each id once, in enumeration order. */
  type Config = seq<(string, Stored)>

  function ReadConfig(config: Config): seq<Entry> {
    seq(|config|, i requires 0 <= i < |config| => ReadEntry(config[i].0, config[i].1))
  }

  function WriteConfig(entries: seq<Entry>): Config {
    seq(|entries|, i requires 0 <= i < |entries| => (entries[i].id, WriteEntry(entries[i])))
  }

  /** The whole file: the same servers in the same order, and a second round trip changes nothing. */
  lemma ConfigSettles(config: Config)
    ensures
      var once := WriteConfig(ReadConfig(config));
      && WriteConfig(ReadConfig(once)) == once
      && |once| == |config| && forall i | 0 <= i < |config| :: once[i].0 == config[i].0
  {
    forall i | 0 <= i < |config|
      ensures Canonical(config[i].0, Canonical(config[i].0, config[i].1)) == Canonical(config[i].0, config[i].1)
    {
      ReadWriteSettles(config[i].0, config[i].1);
    }
  }

  // ----- What the form keeps -----

  predicate IsTidyRecord(pairs: Pairs) {
    KeysDistinct(pairs) && forall p <- pairs :: !IsBlank(p.0)
  }

  predicate IsTidyUrl(url: Option<string>) {
    url.Some? ==> url.value != "" && IsTrimmed(url.value)
  }

  predicate IsTidyOAuth(s: Settings) {
    && s.oauthClientId != Some("") && s.oauthClientSecret != Some("") && s.oauthScopes != Some("")
    && s.oauthOnInsufficientScope != Some("")
    && IsTidyUrl(s.oauthAuthorizationUrl) && IsTidyUrl(s.oauthTokenUrl)
    && (s.oauthAuthorizationParams.Some? ==>
          s.oauthAuthorizationParams.value != [] && IsTidyRecord(s.oauthAuthorizationParams.value))
  }

  /**
   * Nothing half-typed, and no era or level spelled out that is the default anyway. A task TTL of zero is not
   * storable.
   */
  predicate IsTidy(s: Settings) {
    && IsTidyRecord(s.headers) && (forall p <- s.metadata :: !IsBlank(p.0)) && (forall r <- s.roots :: IsCleanRoot(r))
    && s.connectionTimeout >= 0 && s.requestTimeout >= 0 && s.taskTtl > 0
    && (s.protocolEra.Some? ==> s.protocolEra.value in PROTOCOL_ERAS - {DEFAULT_PROTOCOL_ERA})
    && (s.modernLogLevel.Some? ==> s.modernLogLevel.value in MODERN_LOG_LEVELS - {DEFAULT_MODERN_LOG_LEVEL})
    && s.advertisedExtensions != Some([])
    && IsTidyOAuth(s)
  }

  lemma TidyRecordStays(pairs: Pairs)
    ensures ToRecord(pairs) == pairs <==> IsTidyRecord(pairs)
  {
    ToRecordIsRecord(pairs);
    if IsTidyRecord(pairs) {
      ToRecordStays(pairs);
    }
  }

  lemma NoBlankStays(pairs: Pairs)
    ensures DropBlank(pairs) == pairs <==> forall p <- pairs :: !IsBlank(p.0)
  {
    DropBlankDrops(pairs);
    if forall p <- pairs :: !IsBlank(p.0) {
      DropBlankSettles(pairs);
    }
  }

  lemma CleanRootsStay(roots: seq<Root>)
    ensures CleanRoots(roots) == roots <==> forall r <- roots :: IsCleanRoot(r)
  {
    CleanRootsSettles(roots);
    if forall r <- roots :: IsCleanRoot(r) {
      CleanStays(roots);
    }
  }

  /** What reading makes of saved settings beside some `env` and `cwd`, when it makes anything of them. */
  function Reloaded(s: Settings, env: Option<Pairs>, cwd: Option<string>): Settings
    requires ReadFields(WriteFields(s), env, cwd).Some?
  {
    ReadFields(WriteFields(s), env, cwd).value
  }

  lemma UrlSurvives(url: Option<string>)
    ensures CleanUrl(CleanUrl(url)) == url <==> IsTidyUrl(url)
  {
  }

  lemma OAuthSurvives(s: Settings, env: Option<Pairs>, cwd: Option<string>)
    requires ReadFields(WriteFields(s), env, cwd).Some?
    ensures
      var t := Reloaded(s, env, cwd);
      && t.enterpriseManaged == s.enterpriseManaged
      && (IsTidyOAuth(s) <==>
            && t.oauthClientId == s.oauthClientId && t.oauthClientSecret == s.oauthClientSecret
            && t.oauthScopes == s.oauthScopes && t.oauthOnInsufficientScope == s.oauthOnInsufficientScope
            && t.oauthAuthorizationUrl == s.oauthAuthorizationUrl && t.oauthTokenUrl == s.oauthTokenUrl
            && t.oauthAuthorizationParams == s.oauthAuthorizationParams)
  {
    var params := s.oauthAuthorizationParams.GetOr([]);
    UrlSurvives(s.oauthAuthorizationUrl);
    UrlSurvives(s.oauthTokenUrl);
    ToRecordSettles(params);
    TidyRecordStays(params);
  }

  /**
   * Everything but the mirrors comes back as it was exactly when it was tidy; the mirrors come from `env` and `cwd`.
   */
  lemma FieldsSurvive(s: Settings, env: Option<Pairs>, cwd: Option<string>)
    requires ReadFields(WriteFields(s), env, cwd).Some?
    ensures Reloaded(s, env, cwd).env == env.GetOr([]) && Reloaded(s, env, cwd).cwd == Truthy(cwd)
    ensures Reloaded(s, env, cwd).(env := s.env, cwd := s.cwd) == s <==> IsTidy(s)
  {
    TidyRecordStays(s.headers);
    NoBlankStays(s.metadata);
    CleanRootsStay(s.roots);
    DropBlankDrops(s.metadata);
    OAuthSurvives(s, env, cwd);
  }

  /** The `env` and `cwd` an entry shows in its form: a stdio entry's own. */
  function ShownEnv(config: Stored): Option<Pairs> {
    if NormalizeType(config.typ) == Named("stdio") then config.env else None
  }

  function ShownCwd(config: Stored): Option<string> {
    if NormalizeType(config.typ) == Named("stdio") then config.cwd else None
  }

  /** Settings that come to nothing on disk, on an entry that shows no `env` or `cwd` either. */
  predicate LeavesNoTrace(e: Entry)
    requires e.settings.Some?
  {
    WriteFields(e.settings.value) == NO_FIELDS && ShownEnv(e.config).None? && ShownCwd(e.config).None?
  }

  /**
   * Writing an entry and reading it back. Its settings are gone exactly when they leave no trace: defaults on an entry
   * with no `env` or `cwd` to show come back as no settings at all. Otherwise they come back as they were exactly when
   * they were tidy and mirrored what the entry shows.
   */
  lemma SettingsSurviveExactly(e: Entry)
    requires e.settings.Some?
    ensures
      var s, back := e.settings.value, ReadEntry(e.id, WriteEntry(e)).settings;
      && (back == None <==> LeavesNoTrace(e))
      && (back == Some(s) <==>
            && !LeavesNoTrace(e) && IsTidy(s)
            && s.env == ShownEnv(e.config).GetOr([]) && s.cwd == Truthy(ShownCwd(e.config)))
  {
    var s, env, cwd := e.settings.value, ShownEnv(e.config), ShownCwd(e.config);
    assert ReadEntry(e.id, WriteEntry(e)).settings == ReadFields(WriteFields(s), env, cwd);
    if ReadFields(WriteFields(s), env, cwd).Some? {
      FieldsSurvive(s, env, cwd);
      var t := Reloaded(s, env, cwd);
      assert t == t.(env := s.env, cwd := s.cwd) <==> t.env == s.env && t.cwd == s.cwd;
    }
  }

  /** The settings a form shows for an entry that stores none. */
  const DEFAULTS: Settings := Settings(
    [], [], [], 0, 0, DEFAULT_TASK_TTL_MS, false, false, DEFAULT_MAX_FETCH_REQUESTS, [], None, None, None, None, None,
    None, None, None, None, None, false, None)

  /** Tidy settings leave no trace only when they are the defaults. */
  lemma TracelessIsDefault(s: Settings)
    requires IsTidy(s) && s.env == [] && s.cwd == None
    ensures WriteFields(s) == NO_FIELDS <==> s == DEFAULTS
  {
    TidyRecordStays(s.headers);
    NoBlankStays(s.metadata);
    CleanRootsStay(s.roots);
    TidyRecordStays(s.oauthAuthorizationParams.GetOr([]));
    if WriteFields(s) == NO_FIELDS {
      assert WriteOAuth(s) == NO_OAUTH;
    }
  }

  // ----- Secrets -----

  const SECRET_FIELD_OAUTH_CLIENT_SECRET := "oauth-client-secret"

  function EnvSecretField(key: string): string {
    "env:" + key
  }

  predicate IsStdioStored(s: Stored) {
    s.typ == Absent || s.typ == Named("stdio")
  }

  datatype Extracted = Extracted(stripped: Stored, secrets: map<string, string>)

  /** The env keys stay, so the file still shows what the server expects; their values go. */
  function Emptied(env: Pairs): Pairs {
    seq(|env|, i requires 0 <= i < |env| => (env[i].0, ""))
  }

  function EnvSecrets(env: Pairs): map<string, string> {
    if env == [] then map[] else
    var before := EnvSecrets(env[..|env| - 1]);
    var (key, value) := env[|env| - 1];
    if value != "" then before[EnvSecretField(key) := value] else before
  }

  function Extract(stored: Stored): Extracted {
    var o := stored.fields.oauth.GetOr(NO_OAUTH);
    var hasSecret := Truthy(o.clientSecret).Some?;
    var rest := o.(clientSecret := None);
    var stripped :=
      if hasSecret then stored.(fields := stored.fields.(oauth := if rest == NO_OAUTH then None else Some(rest)))
      else stored;
    var secrets := if hasSecret then map[SECRET_FIELD_OAUTH_CLIENT_SECRET := o.clientSecret.value] else map[];
    if IsStdioStored(stored) && stored.env.Some? then
      Extracted(stripped.(env := Some(Emptied(stored.env.value))), secrets + EnvSecrets(stored.env.value))
    else Extracted(stripped, secrets)
  }

  method ExtractSecretsFromStored(stored: Stored) returns (extracted: Extracted)
    ensures extracted == Extract(stored)
  {
    var secrets: map<string, string>, stripped := map[], stored;
    if stored.fields.oauth.Some? && Truthy(stored.fields.oauth.value.clientSecret).Some? {
      secrets := secrets[SECRET_FIELD_OAUTH_CLIENT_SECRET := stored.fields.oauth.value.clientSecret.value];
      var restOauth := stored.fields.oauth.value.(clientSecret := None);
      if restOauth != NO_OAUTH {
        stripped := stripped.(fields := stripped.fields.(oauth := Some(restOauth)));
      } else {
        stripped := stripped.(fields := stripped.fields.(oauth := None));
      }
    }
    if IsStdioStored(stripped) && stripped.env.Some? {
      var env := stripped.env.value;
      ghost var before := secrets;
      var newEnv := [];
      for i := 0 to |env|
        invariant newEnv == Emptied(env[..i])
        invariant secrets == before + EnvSecrets(env[..i])
      {
        assert env[..i + 1][..i] == env[..i];
        if env[i].1 != "" {
          secrets := secrets[EnvSecretField(env[i].0) := env[i].1];
        }
        newEnv := newEnv + [(env[i].0, "")];
      }
      assert env[..|env|] == env;
      stripped := stripped.(env := Some(newEnv));
    }
    return Extracted(stripped, secrets);
  }

  function MergeEnv(env: Pairs, secrets: map<string, string>): Pairs {
    seq(|env|, i requires 0 <= i < |env| =>
      (env[i].0, if EnvSecretField(env[i].0) in secrets then secrets[EnvSecretField(env[i].0)] else env[i].1))
  }

  function Merge(stored: Stored, secrets: map<string, string>): Stored {
    var withOAuth :=
      if SECRET_FIELD_OAUTH_CLIENT_SECRET in secrets && secrets[SECRET_FIELD_OAUTH_CLIENT_SECRET] != "" then
        stored.(fields := stored.fields.(oauth := Some(
          stored.fields.oauth.GetOr(NO_OAUTH).(clientSecret := Some(secrets[SECRET_FIELD_OAUTH_CLIENT_SECRET])))))
      else stored;
    if IsStdioStored(stored) && stored.env.Some? then withOAuth.(env := Some(MergeEnv(stored.env.value, secrets)))
    else withOAuth
  }

  lemma {:induction false} EnvSecretsAreEnvFields(env: Pairs, field: string)
    ensures field in EnvSecrets(env) ==> exists p <- env :: field == EnvSecretField(p.0)
    ensures SECRET_FIELD_OAUTH_CLIENT_SECRET !in EnvSecrets(env)
  {
    if env != [] {
      var n := |env| - 1;
      EnvSecretsAreEnvFields(env[..n], field);
      assert env == env[..n] + [env[n]];
      assert EnvSecretField(env[n].0)[0] == 'e' && SECRET_FIELD_OAUTH_CLIENT_SECRET[0] == 'o';
    }
  }

  /** The record holds the value of each env key that has one. */
  lemma {:induction false} EnvSecretAt(env: Pairs, i: nat)
    requires KeysDistinct(env) && i < |env|
    ensures
      var field := EnvSecretField(env[i].0);
      if env[i].1 != "" then field in EnvSecrets(env) && EnvSecrets(env)[field] == env[i].1
      else field !in EnvSecrets(env)
  {
    var n := |env| - 1;
    if i < n {
      EnvSecretAt(env[..n], i);
      EnvSecretFieldInjective(env[i].0, env[n].0);
    } else if env[n].1 == "" {
      EnvSecretsAreEnvFields(env[..n], EnvSecretField(env[n].0));
      forall p | p in env[..n]
        ensures EnvSecretField(p.0) != EnvSecretField(env[n].0)
      {
        EnvSecretFieldInjective(p.0, env[n].0);
        var j :| 0 <= j < n && env[j] == p;
      }
    }
  }

  lemma EnvSecretFieldInjective(a: string, b: string)
    ensures EnvSecretField(a) == EnvSecretField(b) ==> a == b
  {
    assert EnvSecretField(a)[4..] == a && EnvSecretField(b)[4..] == b;
  }

  /** Nothing is lost: the stripped entry and its keychain record together are the entry that was stored. */
  lemma MergeRestores(stored: Stored)
    requires stored.env.Some? ==> KeysDistinct(stored.env.value)
    ensures Merge(Extract(stored).stripped, Extract(stored).secrets) == stored
  {
    if stored.env.Some? {
      var env := stored.env.value;
      EnvSecretsAreEnvFields(env, "");
      var secrets := Extract(stored).secrets;
      if IsStdioStored(stored) {
        assert MergeEnv(Emptied(env), secrets) == env by {
          assert |MergeEnv(Emptied(env), secrets)| == |env|;
          forall i | 0 <= i < |env|
            ensures MergeEnv(Emptied(env), secrets)[i] == env[i]
          {
            EnvSecretAt(env, i);
            assert EnvSecretField(env[i].0)[0] == 'e' && SECRET_FIELD_OAUTH_CLIENT_SECRET[0] == 'o';
          }
        }
      }
    }
  }

  /** Merging changes what it has a secret for, and leaves every other value, empty ones included, as it stands. */
  lemma MergeChangesOnlyNamed(stored: Stored, secrets: map<string, string>)
    ensures Merge(stored, map[]) == stored
    ensures
      var merged := Merge(stored, secrets);
      && merged == stored.(env := merged.env, fields := stored.fields.(oauth := merged.fields.oauth))
      && (!IsStdioStored(stored) ==> merged.env == stored.env)
      && (stored.env.Some? && IsStdioStored(stored) ==>
            && merged.env.Some? && |merged.env.value| == |stored.env.value|
            && forall i | 0 <= i < |stored.env.value| ::
                 var (key, value) := stored.env.value[i];
                 merged.env.value[i] == (key, if "env:" + key in secrets then secrets["env:" + key] else value))
      && ("oauth-client-secret" !in secrets ==> merged.fields == stored.fields)
  {
    if stored.env.Some? {
      assert MergeEnv(stored.env.value, map[]) == stored.env.value;
    }
  }

  /** Nothing leaks: what is left for the file carries no client secret, and no env value of a stdio entry. */
  lemma StrippedCarriesNoSecret(stored: Stored)
    ensures
      var stripped := Extract(stored).stripped;
      && (stripped.fields.oauth.Some? ==> Truthy(stripped.fields.oauth.value.clientSecret) == None)
      && (IsStdioStored(stored) && stripped.env.Some? ==> forall p <- stripped.env.value :: p.1 == "")
      && (stripped.env.Some? <==> stored.env.Some?)
      && (stripped.env.Some? ==>
            && |stripped.env.value| == |stored.env.value|
            && forall i | 0 <= i < |stored.env.value| :: stripped.env.value[i].0 == stored.env.value[i].0)
  {
  }
}
